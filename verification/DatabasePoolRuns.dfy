/**
 Every interleaving of acquire calls, wake-ups, interruptions, returned connections and closing: the
 slots are accounted for, and waiters are served in the order of their arrival.
 */
module DatabasePoolRuns {
  import opened Sequences
  import opened DatabasePool

  /**
   Where an acquire call is: at the await of its future (`interrupted` if a cancellation or the timeout
   will be raised there), fetching a connection, closing one fetched too late, or finished.
   */
  datatype Phase = Waiting(interrupted: bool) | Connecting | Closing | Done

  /** `grants` lists the waiters that were handed a slot, in the order of the hand-offs. */
  datatype State = State(gate: Gate, tasks: seq<Phase>, leased: set<Record>, grants: seq<Id>)

  /** Code between two awaits runs as one event. */
  datatype Event =
    | Start
    | Interrupt(t: Id)
    | Resume(t: Id)
    | Connect(t: Id, r: Record)
    | Fail(t: Id)
    | Return(r: Record)
    | Close

  const INIT := State(Gate(0, [], map[], false), [], {}, [])

  /** The waiters whose futures are not done, in queue order. */
  function LiveIn(ws: seq<Id>, fs: map<Id, Future>): seq<Id> {
    if ws == [] then []
    else (if ws[0] in fs && fs[ws[0]] == Pending then [ws[0]] else []) + LiveIn(ws[1..], fs)
  }

  function Live(g: Gate): seq<Id> {
    LiveIn(g.waiters, g.futures)
  }

  /** `release` in a run: the hand-off, if there is one, is recorded. */
  function Free(s: State): State {
    var live := Live(s.gate);
    s.(gate := Released(s.gate), grants := s.grants + (if live == [] then [] else [live[0]]))
  }

  predicate Enabled(s: State, e: Event) {
    match e
    case Interrupt(t) => t < |s.tasks| && s.tasks[t].Waiting?
    case Resume(t) => t < |s.tasks| && s.tasks[t].Waiting? && FutureOf(s.gate, t) != Pending
    case Connect(t, r) => t < |s.tasks| && s.tasks[t].Connecting? && r !in s.leased
    case Fail(t) => t < |s.tasks| && (s.tasks[t].Connecting? || s.tasks[t].Closing?)
    case _ => true
  }

  function Started(c: Limits, s: State): State {
    var (g, o) := Acquired(c, s.gate, |s.tasks|);
    s.(gate := g, tasks := s.tasks + [if o == Slot then Connecting else if o == Queued then Waiting(false) else Done])
  }

  function Interrupted(s: State, t: Id): State
    requires Enabled(s, Interrupt(t))
  {
    if FutureOf(s.gate, t) == Pending then s.(gate := s.gate.(futures := s.gate.futures[t := Cancelled]))
    else s.(tasks := s.tasks[t := Waiting(true)])
  }

  /** The waiter takes the slot it was handed, or leaves through the exception handler. */
  function Resumed(s: State, t: Id): State
    requires Enabled(s, Resume(t))
  {
    if FutureOf(s.gate, t) == Granted && !s.tasks[t].interrupted then s.(tasks := s.tasks[t := Connecting])
    else
      var left := s.(tasks := s.tasks[t := Done]);
      if t !in s.gate.waiters && FutureOf(s.gate, t) == Granted then Free(left)
      else left.(gate := Aborted(s.gate, t))
  }

  function ConnectedTo(s: State, t: Id, r: Record): State
    requires Enabled(s, Connect(t, r))
  {
    var (leased, kept) := Connected(s.gate, s.leased, r);
    s.(leased := leased, tasks := s.tasks[t := if kept then Done else Closing])
  }

  function Next(c: Limits, s: State, e: Event): State
    requires Enabled(s, e)
  {
    match e
    case Start => Started(c, s)
    case Interrupt(t) => Interrupted(s, t)
    case Resume(t) => Resumed(s, t)
    case Connect(t, r) => ConnectedTo(s, t, r)
    case Fail(t) => Free(s.(tasks := s.tasks[t := Done]))
    case Return(r) => if r in s.leased then Free(s.(leased := s.leased - {r})) else s
    case Close => s.(gate := Closed(s.gate))
  }

  // ---------- the invariant

  /** The call holds a slot: it was handed one it has not picked up, or it is past the gate and not leased yet. */
  predicate Holds(p: Phase, f: Future) {
    p.Connecting? || p.Closing? || (p.Waiting? && f == Granted)
  }

  function Holders(s: State): set<Id> {
    set t | 0 <= t < |s.tasks| && Holds(s.tasks[t], FutureOf(s.gate, t))
  }

  predicate Ascending(ws: seq<Id>) {
    forall i, j | 0 <= i < j < |ws| :: ws[i] < ws[j]
  }

  predicate Queues(s: State, w: Id) {
    w < |s.tasks| && s.tasks[w].Waiting? && (FutureOf(s.gate, w) == Pending || FutureOf(s.gate, w) == Cancelled)
  }

  /** The waiters are calls at their await; nobody pending is missing; the queue and all hand-offs keep the order of arrival. */
  ghost predicate Queue(s: State) {
    && (forall i | 0 <= i < |s.gate.waiters| :: Queues(s, s.gate.waiters[i]))
    && (forall t | 0 <= t < |s.tasks| && s.tasks[t].Waiting? && FutureOf(s.gate, t) == Pending :: t in s.gate.waiters)
    && Ascending(s.grants + s.gate.waiters)
    && (forall i | 0 <= i < |s.grants| :: s.grants[i] < |s.tasks|)
    && (forall w | w in s.gate.futures :: w < |s.tasks|)
  }

  /** `inHand` slots are on their way to `release`. */
  ghost predicate Accounted(c: Limits, s: State, inHand: nat) {
    && s.gate.active == |Holders(s)| + |s.leased| + inHand
    && s.gate.active <= c.limit
    && (s.gate.waiters != [] ==> s.gate.active == c.limit)
    && |s.gate.waiters| <= c.queueLimit
    && (s.gate.closed ==> s.gate.waiters == [])
  }

  ghost predicate Inv(c: Limits, s: State) {
    Queue(s) && Accounted(c, s, 0)
  }

  // ---------- release

  function Pop(s: State): State
    requires s.gate.waiters != []
  {
    s.(gate := s.gate.(waiters := s.gate.waiters[1..]))
  }

  lemma PopQueue(s: State)
    requires Queue(s) && s.gate.waiters != [] && FutureOf(s.gate, s.gate.waiters[0]) != Pending
    ensures Queue(Pop(s))
  {
    var a, b := s.grants + s.gate.waiters, s.grants + s.gate.waiters[1..];
    forall i, j | 0 <= i < j < |b| ensures b[i] < b[j] {
      assert b[i] == a[if i < |s.grants| then i else i + 1];
      assert b[j] == a[if j < |s.grants| then j else j + 1];
    }
  }

  lemma GrantQueue(s: State)
    requires Queue(s) && s.gate.waiters != [] && FutureOf(s.gate, s.gate.waiters[0]) == Pending
    ensures Queue(Free(s))
  {
    var w := s.gate.waiters[0];
    var s' := Free(s);
    assert s'.grants + s'.gate.waiters == s.grants + s.gate.waiters;
    forall i | 0 <= i < |s'.gate.waiters| ensures Queues(s', s'.gate.waiters[i]) {
      assert s'.gate.waiters[i] == s.gate.waiters[i + 1];
      assert Queues(s, s.gate.waiters[i + 1]);
      assert (s.grants + s.gate.waiters)[|s.grants|] < (s.grants + s.gate.waiters)[|s.grants| + i + 1];
    }
  }

  lemma GrantAccounted(c: Limits, s: State)
    requires Queue(s) && Accounted(c, s, 1) && s.gate.waiters != [] && FutureOf(s.gate, s.gate.waiters[0]) == Pending
    ensures Accounted(c, Free(s), 0)
  {
    var w := s.gate.waiters[0];
    assert Queues(s, w);
    assert Holders(Free(s)) == Holders(s) + {w};
  }

  /** Releasing a slot in hand passes it to exactly one waiter or gives it back. */
  lemma {:induction false} FreeKeeps(c: Limits, s: State)
    requires Queue(s) && Accounted(c, s, 1)
    ensures Inv(c, Free(s))
    decreases |s.gate.waiters|
  {
    if s.gate.waiters == [] {
      assert Holders(Free(s)) == Holders(s);
      assert Free(s).grants == s.grants;
    } else if FutureOf(s.gate, s.gate.waiters[0]) == Pending {
      GrantQueue(s);
      GrantAccounted(c, s);
    } else {
      PopQueue(s);
      assert Holders(Pop(s)) == Holders(s);
      FreeKeeps(c, Pop(s));
    }
  }

  // ---------- every step keeps the invariant

  lemma StartQueue(c: Limits, s: State)
    requires Inv(c, s)
    ensures Queue(Started(c, s))
  {
    var s' := Started(c, s);
    var t := |s.tasks|;
    forall i | 0 <= i < |s'.gate.waiters| ensures Queues(s', s'.gate.waiters[i]) {
      assert i < |s.gate.waiters| ==> Queues(s, s.gate.waiters[i]);
    }
    if s'.gate.waiters != s.gate.waiters {
      var a := s.grants + s.gate.waiters;
      assert s'.grants + s'.gate.waiters == a + [t];
      forall i | 0 <= i < |a| ensures a[i] < t {
        assert i >= |s.grants| ==> a[i] == s.gate.waiters[i - |s.grants|];
      }
    }
  }

  lemma StartKeeps(c: Limits, s: State)
    requires Inv(c, s)
    ensures Inv(c, Started(c, s))
  {
    StartQueue(c, s);
    var t := |s.tasks|;
    assert t !in s.gate.futures;
    assert Holders(Started(c, s)) == if Acquired(c, s.gate, t).1 == Slot then Holders(s) + {t} else Holders(s);
  }

  lemma InterruptKeeps(c: Limits, s: State, t: Id)
    requires Inv(c, s) && Enabled(s, Interrupt(t))
    ensures Inv(c, Interrupted(s, t))
  {
    var s' := Interrupted(s, t);
    assert Holders(s') == Holders(s);
    forall i | 0 <= i < |s'.gate.waiters| ensures Queues(s', s'.gate.waiters[i]) {
      assert Queues(s, s.gate.waiters[i]);
    }
  }

  /** A call that is not pending leaves; a slot it holds is then in hand. */
  lemma LeaveKeeps(c: Limits, s: State, t: Id, p: Phase)
    requires Inv(c, s) && t < |s.tasks| && t !in s.gate.waiters && (p.Done? || p.Closing? || p.Connecting?)
    ensures var s' := s.(tasks := s.tasks[t := p]);
      && Queue(s')
      && (p.Done? ==> Accounted(c, s', if t in Holders(s) then 1 else 0))
      && (!p.Done? && t in Holders(s) ==> Accounted(c, s', 0))
  {
    var s' := s.(tasks := s.tasks[t := p]);
    assert Holders(s') == if p.Done? then Holders(s) - {t} else Holders(s) + {t};
    forall i | 0 <= i < |s'.gate.waiters| ensures Queues(s', s'.gate.waiters[i]) {
      assert Queues(s, s.gate.waiters[i]);
    }
  }

  lemma {:induction false} RemoveAt(ws: seq<Id>, w: Id) returns (i: nat)
    requires w in ws
    ensures i < |ws| && ws[i] == w && Remove(ws, w) == ws[..i] + ws[i + 1..]
  {
    if ws[0] == w {
      i := 0;
    } else {
      i := RemoveAt(ws[1..], w);
      i := i + 1;
    }
  }

  lemma RemoveFacts(a: seq<Id>, ws: seq<Id>, w: Id)
    requires Ascending(a + ws) && w in ws
    ensures Ascending(a + Remove(ws, w)) && |Remove(ws, w)| == |ws| - 1
    ensures forall x | x in Remove(ws, w) :: x in ws && x != w
    ensures forall x | x in ws && x != w :: x in Remove(ws, w)
  {
    var n := RemoveAt(ws, w);
    var b := a + Remove(ws, w);
    assert forall i | 0 <= i < |b| :: b[i] == (a + ws)[if i < |a| + n then i else i + 1];
    forall i | 0 <= i < |Remove(ws, w)| ensures Remove(ws, w)[i] != w {
      assert (a + ws)[|a| + n] == w;
      assert Remove(ws, w)[i] == (a + ws)[if i < n then |a| + i else |a| + i + 1];
    }
    forall x | x in ws && x != w ensures x in Remove(ws, w) {
      var i :| 0 <= i < |ws| && ws[i] == x;
      assert Remove(ws, w)[if i < n then i else i - 1] == x;
    }
  }

  /** A cancelled waiter that is still queued takes itself out. */
  lemma WithdrawKeeps(c: Limits, s: State, t: Id)
    requires Inv(c, s) && t in s.gate.waiters && FutureOf(s.gate, t) != Pending
    ensures Inv(c, s.(tasks := s.tasks[t := Done], gate := Aborted(s.gate, t)))
  {
    var s' := s.(tasks := s.tasks[t := Done], gate := Aborted(s.gate, t));
    var i :| 0 <= i < |s.gate.waiters| && s.gate.waiters[i] == t;
    assert Queues(s, s.gate.waiters[i]);
    assert Holders(s') == Holders(s);
    RemoveFacts(s.grants, s.gate.waiters, t);
    forall i | 0 <= i < |s'.gate.waiters| ensures Queues(s', s'.gate.waiters[i]) {
      assert s'.gate.waiters[i] in Remove(s.gate.waiters, t);
      var j :| 0 <= j < |s.gate.waiters| && s.gate.waiters[j] == s'.gate.waiters[i];
      assert Queues(s, s.gate.waiters[j]);
    }
  }

  lemma NotQueued(s: State, t: Id)
    requires Queue(s) && t in s.gate.waiters
    ensures t < |s.tasks| && s.tasks[t].Waiting? && FutureOf(s.gate, t) != Granted && FutureOf(s.gate, t) != Failed
  {
    var i :| 0 <= i < |s.gate.waiters| && s.gate.waiters[i] == t;
    assert Queues(s, s.gate.waiters[i]);
  }

  lemma ResumeKeeps(c: Limits, s: State, t: Id)
    requires Inv(c, s) && Enabled(s, Resume(t))
    ensures Inv(c, Resumed(s, t))
  {
    if t in s.gate.waiters {
      NotQueued(s, t);
      WithdrawKeeps(c, s, t);
    } else if FutureOf(s.gate, t) == Granted {
      LeaveKeeps(c, s, t, if s.tasks[t].interrupted then Done else Connecting);
      if s.tasks[t].interrupted {
        FreeKeeps(c, s.(tasks := s.tasks[t := Done]));
      }
    } else {
      LeaveKeeps(c, s, t, Done);
    }
  }

  lemma ConnectKeeps(c: Limits, s: State, t: Id, r: Record)
    requires Inv(c, s) && Enabled(s, Connect(t, r))
    ensures Inv(c, ConnectedTo(s, t, r))
  {
    if t in s.gate.waiters {
      NotQueued(s, t);
    }
    LeaveKeeps(c, s, t, if s.gate.closed then Closing else Done);
    var left := s.(tasks := s.tasks[t := if s.gate.closed then Closing else Done]);
    assert Holders(ConnectedTo(s, t, r)) == Holders(left);
  }

  lemma FailKeeps(c: Limits, s: State, t: Id)
    requires Inv(c, s) && Enabled(s, Fail(t))
    ensures Inv(c, Next(c, s, Fail(t)))
  {
    if t in s.gate.waiters {
      NotQueued(s, t);
    }
    LeaveKeeps(c, s, t, Done);
    FreeKeeps(c, s.(tasks := s.tasks[t := Done]));
  }

  lemma ReturnKeeps(c: Limits, s: State, r: Record)
    requires Inv(c, s)
    ensures Inv(c, Next(c, s, Return(r)))
  {
    if r in s.leased {
      var s' := s.(leased := s.leased - {r});
      assert Holders(s') == Holders(s);
      forall i | 0 <= i < |s'.gate.waiters| ensures Queues(s', s'.gate.waiters[i]) {
        assert Queues(s, s.gate.waiters[i]);
      }
      FreeKeeps(c, s');
    }
  }

  lemma CloseKeeps(c: Limits, s: State)
    requires Inv(c, s)
    ensures Inv(c, Next(c, s, Close))
  {
    FailAllFacts(s.gate.waiters, s.gate.futures);
    var s' := Next(c, s, Close);
    assert Holders(s') == Holders(s);
    assert s'.grants + s'.gate.waiters == s.grants;
    assert forall i | 0 <= i < |s.grants| :: (s.grants + s.gate.waiters)[i] == s.grants[i];
  }

  lemma StepKeeps(c: Limits, s: State, e: Event)
    requires Inv(c, s) && Enabled(s, e)
    ensures Inv(c, Next(c, s, e))
  {
    match e
    case Start => StartKeeps(c, s);
    case Interrupt(t) => InterruptKeeps(c, s, t);
    case Resume(t) => ResumeKeeps(c, s, t);
    case Connect(t, r) => ConnectKeeps(c, s, t, r);
    case Fail(t) => FailKeeps(c, s, t);
    case Return(r) => ReturnKeeps(c, s, r);
    case Close => CloseKeeps(c, s);
  }

  // ---------- whole runs

  predicate Runs(c: Limits, s: State, es: seq<Event>)
    decreases |es|
  {
    es == [] || (Enabled(s, es[0]) && Runs(c, Next(c, s, es[0]), es[1..]))
  }

  function After(c: Limits, s: State, es: seq<Event>): State
    requires Runs(c, s, es)
    decreases |es|
  {
    if es == [] then s else After(c, Next(c, s, es[0]), es[1..])
  }

  lemma {:induction false} RunKeeps(c: Limits, s: State, es: seq<Event>)
    requires Inv(c, s) && Runs(c, s, es)
    ensures Inv(c, After(c, s, es))
    decreases |es|
  {
    if es != [] {
      StepKeeps(c, s, es[0]);
      RunKeeps(c, Next(c, s, es[0]), es[1..]);
    }
  }

  /** The event gives a slot back. */
  predicate Releases(s: State, e: Event)
    requires Enabled(s, e)
  {
    match e
    case Resume(t) => s.tasks[t].interrupted && t !in s.gate.waiters && FutureOf(s.gate, t) == Granted
    case Fail(_) => true
    case Return(r) => r in s.leased
    case _ => false
  }

  function ReleaseCount(c: Limits, s: State, es: seq<Event>): nat
    requires Runs(c, s, es)
    decreases |es|
  {
    if es == [] then 0
    else (if Releases(s, es[0]) then 1 else 0) + ReleaseCount(c, Next(c, s, es[0]), es[1..])
  }

  lemma InitInv(c: Limits)
    ensures Inv(c, INIT)
  {
    assert Holders(INIT) == {};
  }

  /**
   In every run: each slot in use belongs to one call past the gate, one hand-off not picked up or one
   leased connection; there are never more than the limit; and while anyone waits there is none to spare.
   */
  lemma SlotsAreAccountedFor(c: Limits, es: seq<Event>)
    requires Runs(c, INIT, es)
    ensures var s := After(c, INIT, es);
      && s.gate.active == |Holders(s)| + |s.leased|
      && 0 <= s.gate.active <= c.limit && |s.gate.waiters| <= c.queueLimit
      && (s.gate.waiters != [] ==> s.gate.active == c.limit)
  {
    InitInv(c);
    RunKeeps(c, INIT, es);
  }

  /** In every run: slots are handed over in the order in which the waiters arrived, to each at most once. */
  lemma HandedOverInOrderOfArrival(c: Limits, es: seq<Event>)
    requires Runs(c, INIT, es)
    ensures var s := After(c, INIT, es);
      Ascending(s.grants) && forall i, j | 0 <= i < |s.grants| && 0 <= j < |s.gate.waiters| :: s.grants[i] < s.gate.waiters[j]
  {
    InitInv(c);
    RunKeeps(c, INIT, es);
    var s := After(c, INIT, es);
    var all := s.grants + s.gate.waiters;
    assert forall i | 0 <= i < |s.grants| :: all[i] == s.grants[i];
    assert forall j | 0 <= j < |s.gate.waiters| :: all[|s.grants| + j] == s.gate.waiters[j];
  }

  /** A newcomer never takes a slot past a waiter. */
  lemma NewcomersQueue(c: Limits, es: seq<Event>)
    requires Runs(c, INIT, es) && After(c, INIT, es).gate.waiters != []
    ensures var s := After(c, INIT, es); Acquired(c, s.gate, |s.tasks|).1 != Slot
  {
    InitInv(c);
    RunKeeps(c, INIT, es);
  }

  // ---------- every call gets an answer

  /** A call that starts gets a free slot, waits at the end of the queue, or is refused, by the state of the gate alone. */
  lemma StartAnswered(c: Limits, es: seq<Event>)
    requires Runs(c, INIT, es)
    ensures var s := After(c, INIT, es);
      var t := |s.tasks|;
      var s' := Next(c, s, Start);
      && |s'.tasks| == t + 1
      && (s'.tasks[t].Connecting? <==> !s.gate.closed && s.gate.active < c.limit)
      && (s'.tasks[t] == Waiting(false) <==> !s.gate.closed && s.gate.active >= c.limit && |s.gate.waiters| < c.queueLimit)
      && (s'.tasks[t] == Waiting(false) ==> Waits(s'.gate, t) && s'.gate.waiters == s.gate.waiters + [t])
      && (s'.tasks[t].Done? <==> s.gate.closed || (s.gate.active >= c.limit && |s.gate.waiters| >= c.queueLimit))
      && (s'.tasks[t].Done? ==> s'.gate == s.gate)
  {
    InitInv(c);
    RunKeeps(c, INIT, es);
  }

  /** A waiter that was handed a slot fetches a connection when it resumes, and leases what it fetches while the gate is open. */
  lemma GrantedProceeds(c: Limits, s: State, t: Id, r: Record)
    requires t < |s.tasks| && s.tasks[t] == Waiting(false) && FutureOf(s.gate, t) == Granted && r !in s.leased
    ensures Enabled(s, Resume(t))
    ensures var s' := Next(c, s, Resume(t));
      && s'.tasks[t].Connecting? && s'.gate == s.gate && Enabled(s', Connect(t, r))
      && (!s.gate.closed ==> Next(c, s', Connect(t, r)).leased == s.leased + {r} && Next(c, s', Connect(t, r)).tasks[t].Done?)
      && (s.gate.closed ==> Next(c, s', Connect(t, r)).leased == s.leased && Next(c, s', Connect(t, r)).tasks[t].Closing?)
  {
  }

  /** An interruption takes a waiter that is not served out of the queue, and makes one that was handed a slot pass it on. */
  lemma InterruptedLeaves(c: Limits, s: State, t: Id)
    requires Inv(c, s) && t < |s.tasks| && s.tasks[t] == Waiting(false)
    ensures var i := Next(c, s, Interrupt(t));
      var left := Next(c, i, Resume(t));
      && Enabled(s, Interrupt(t)) && Enabled(i, Resume(t)) && left.tasks[t].Done?
      && (FutureOf(s.gate, t) == Pending ==>
            left.gate.waiters == Remove(s.gate.waiters, t) && left.gate.active == s.gate.active && left.grants == s.grants)
      && (FutureOf(s.gate, t) == Granted ==> left.gate == Released(s.gate))
      && (FutureOf(s.gate, t) == Failed ==> left.gate == s.gate)
  {
    if t in s.gate.waiters {
      NotQueued(s, t);
    }
  }

  // ---------- a waiter's turn

  predicate PendingIn(fs: map<Id, Future>, w: Id) {
    w in fs && fs[w] == Pending
  }

  predicate Waits(g: Gate, w: Id) {
    w in g.waiters && PendingIn(g.futures, w)
  }

  /** How many live waiters are ahead of `w`. */
  function Ahead(ws: seq<Id>, fs: map<Id, Future>, w: Id): nat {
    if ws == [] || ws[0] == w then 0 else (if PendingIn(fs, ws[0]) then 1 else 0) + Ahead(ws[1..], fs, w)
  }

  function AheadOf(s: State, w: Id): nat {
    Ahead(s.gate.waiters, s.gate.futures, w)
  }

  lemma {:induction false} AheadAfterAppend(ws: seq<Id>, fs: map<Id, Future>, w: Id, t: Id)
    requires w in ws && t !in ws
    ensures Ahead(ws + [t], fs[t := Pending], w) == Ahead(ws, fs, w)
  {
    if ws[0] != w {
      assert (ws + [t])[1..] == ws[1..] + [t];
      AheadAfterAppend(ws[1..], fs, w, t);
    }
  }

  lemma {:induction false} AheadAfterInterrupt(ws: seq<Id>, fs: map<Id, Future>, w: Id, t: Id)
    requires t != w
    ensures Ahead(ws, fs[t := Cancelled], w) <= Ahead(ws, fs, w)
  {
    if ws != [] && ws[0] != w {
      AheadAfterInterrupt(ws[1..], fs, w, t);
    }
  }

  lemma {:induction false} AheadAfterRemove(ws: seq<Id>, fs: map<Id, Future>, w: Id, t: Id)
    requires w in ws && t != w && !PendingIn(fs, t)
    ensures w in Remove(ws, t) && Ahead(Remove(ws, t), fs, w) == Ahead(ws, fs, w)
  {
    if ws[0] != w && ws[0] != t {
      AheadAfterRemove(ws[1..], fs, w, t);
      assert ([ws[0]] + Remove(ws[1..], t))[1..] == Remove(ws[1..], t);
    }
  }

  /** A release serves the first live waiter and brings every other one a place forward. */
  lemma {:induction false} ReleaseAdvances(s: State, w: Id)
    requires Queue(s) && Waits(s.gate, w)
    ensures AheadOf(s, w) == 0 ==> w in Free(s).grants
    ensures AheadOf(s, w) > 0 ==> Waits(Free(s).gate, w) && AheadOf(Free(s), w) == AheadOf(s, w) - 1
    decreases |s.gate.waiters|
  {
    var ws, fs := s.gate.waiters, s.gate.futures;
    if PendingIn(fs, ws[0]) {
      if ws[0] != w {
        HeadNotBehind(s);
        AheadAfterGrant(ws[1..], fs, w, ws[0]);
      }
    } else {
      PopQueue(s);
      ReleaseAdvances(Pop(s), w);
    }
  }

  lemma HeadNotBehind(s: State)
    requires Queue(s) && s.gate.waiters != []
    ensures s.gate.waiters[0] !in s.gate.waiters[1..]
  {
    var all := s.grants + s.gate.waiters;
    forall i | 1 <= i < |s.gate.waiters| ensures s.gate.waiters[i] != s.gate.waiters[0] {
      assert all[|s.grants|] < all[|s.grants| + i];
    }
  }

  lemma {:induction false} AheadAfterGrant(ws: seq<Id>, fs: map<Id, Future>, w: Id, t: Id)
    requires t !in ws && t != w
    ensures Ahead(ws, fs[t := Granted], w) == Ahead(ws, fs, w)
  {
    if ws != [] && ws[0] != w {
      AheadAfterGrant(ws[1..], fs, w, t);
    }
  }

  /** The event interrupts a live waiter. */
  predicate Interrupts(s: State, e: Event) {
    e.Interrupt? && FutureOf(s.gate, e.t) == Pending
  }

  lemma TurnStep(c: Limits, s: State, e: Event, w: Id)
    requires Inv(c, s) && Enabled(s, e) && Waits(s.gate, w) && e != Close && e != Interrupt(w)
    ensures var s' := Next(c, s, e);
      if Releases(s, e) && AheadOf(s, w) == 0 then w in s'.grants
      else
        && Waits(s'.gate, w)
        && AheadOf(s', w) <= AheadOf(s, w) - (if Releases(s, e) then 1 else 0)
        && (!Interrupts(s, e) ==> AheadOf(s', w) == AheadOf(s, w) - (if Releases(s, e) then 1 else 0))
  {
    if e.Start? {
      assert |s.tasks| !in s.gate.futures;
      if |s.tasks| in s.gate.waiters {
        NotQueued(s, |s.tasks|);
      }
      AheadAfterAppend(s.gate.waiters, s.gate.futures, w, |s.tasks|);
    } else if e.Interrupt? {
      AheadAfterInterrupt(s.gate.waiters, s.gate.futures, w, e.t);
    } else if e.Resume? {
      NotQueued(s, w);
      if e.t in s.gate.waiters {
        AheadAfterRemove(s.gate.waiters, s.gate.futures, w, e.t);
      } else if Releases(s, e) {
        LeaveKeeps(c, s, e.t, Done);
        ReleaseAdvances(s.(tasks := s.tasks[e.t := Done]), w);
      }
    } else if e.Fail? {
      if e.t in s.gate.waiters {
        NotQueued(s, e.t);
      }
      LeaveKeeps(c, s, e.t, Done);
      ReleaseAdvances(s.(tasks := s.tasks[e.t := Done]), w);
    } else if e.Return? && e.r in s.leased {
      var s' := s.(leased := s.leased - {e.r});
      forall i | 0 <= i < |s'.gate.waiters| ensures Queues(s', s'.gate.waiters[i]) {
        assert Queues(s, s.gate.waiters[i]);
      }
      ReleaseAdvances(s', w);
    }
  }

  lemma GrantsGrow(c: Limits, s: State, e: Event, w: Id)
    requires Enabled(s, e) && w in s.grants
    ensures w in Next(c, s, e).grants
  {
  }

  lemma {:induction false} GrantsStay(c: Limits, s: State, es: seq<Event>, w: Id)
    requires Runs(c, s, es) && w in s.grants
    ensures w in After(c, s, es).grants
    decreases |es|
  {
    if es != [] {
      GrantsGrow(c, s, es[0], w);
      GrantsStay(c, Next(c, s, es[0]), es[1..], w);
    }
  }

  /** Nobody live is interrupted during the run. */
  predicate Calm(c: Limits, s: State, es: seq<Event>)
    requires Runs(c, s, es)
    decreases |es|
  {
    es == [] || (!Interrupts(s, es[0]) && Calm(c, Next(c, s, es[0]), es[1..]))
  }

  /**
   A waiter with `k` live waiters ahead is served by the `k + 1`-th release at the latest, unless it is
   interrupted or the gate closes; and not before, unless someone ahead of it is interrupted.
   */
  lemma {:induction false} ServedInTurn(c: Limits, s: State, es: seq<Event>, w: Id)
    requires Inv(c, s) && Runs(c, s, es) && Waits(s.gate, w)
    requires forall i | 0 <= i < |es| :: es[i] != Close && es[i] != Interrupt(w)
    ensures AheadOf(s, w) < ReleaseCount(c, s, es) ==> w in After(c, s, es).grants
    ensures Calm(c, s, es) && ReleaseCount(c, s, es) <= AheadOf(s, w) ==> Waits(After(c, s, es).gate, w)
    decreases |es|
  {
    if es != [] {
      var s' := Next(c, s, es[0]);
      assert forall i | 0 <= i < |es[1..]| :: es[1..][i] == es[i + 1];
      TurnStep(c, s, es[0], w);
      StepKeeps(c, s, es[0]);
      if Releases(s, es[0]) && AheadOf(s, w) == 0 {
        GrantsStay(c, s', es[1..], w);
      } else {
        ServedInTurn(c, s', es[1..], w);
      }
    }
  }

  // ---------- after closing

  lemma ClosedStep(c: Limits, s: State, e: Event)
    requires Inv(c, s) && s.gate.closed && Enabled(s, e)
    ensures var s' := Next(c, s, e);
      && s'.gate.closed && s'.leased <= s.leased && s'.grants == s.grants
      && s'.gate.active == s.gate.active - (if Releases(s, e) then 1 else 0)
  {
  }

  /** Once closed, no connection is leased and no slot handed over; every release frees one slot for good. */
  lemma {:induction false} ClosedPoolDrains(c: Limits, s: State, es: seq<Event>)
    requires Inv(c, s) && s.gate.closed && Runs(c, s, es)
    ensures var s' := After(c, s, es);
      && s'.gate.active == s.gate.active - ReleaseCount(c, s, es)
      && s'.leased <= s.leased && s'.grants == s.grants
      && s'.gate.active == |Holders(s')| + |s'.leased|
    decreases |es|
  {
    if es != [] {
      ClosedStep(c, s, es[0]);
      StepKeeps(c, s, es[0]);
      ClosedPoolDrains(c, Next(c, s, es[0]), es[1..]);
    }
  }

  /** No slot is in use. */
  predicate Drained(s: State) {
    s.gate.active == 0 && s.leased == {} && Holders(s) == {}
  }

  /** Every run from a closed state with as many releases as there were slots in use has drained the pool. */
  lemma EnoughReleasesDrain(c: Limits, s: State, es: seq<Event>)
    requires Inv(c, s) && s.gate.closed && Runs(c, s, es) && ReleaseCount(c, s, es) >= s.gate.active
    ensures Drained(After(c, s, es)) && ReleaseCount(c, s, es) == s.gate.active
  {
    ClosedPoolDrains(c, s, es);
  }

  /** Steps of calls and connections that are in use already. */
  predicate Finishes(e: Event) {
    e.Resume? || e.Fail? || e.Return?
  }

  lemma {:induction false} RunsAppend(c: Limits, s: State, es: seq<Event>, more: seq<Event>)
    requires Runs(c, s, es) && Runs(c, After(c, s, es), more)
    ensures Runs(c, s, es + more) && After(c, s, es + more) == After(c, After(c, s, es), more)
    decreases |es|
  {
    if es == [] {
      assert es + more == more;
    } else {
      assert (es + more)[1..] == es[1..] + more;
      RunsAppend(c, Next(c, s, es[0]), es[1..], more);
    }
  }

  lemma OneStep(c: Limits, s: State, e: Event)
    requires Enabled(s, e)
    ensures Runs(c, s, [e]) && After(c, s, [e]) == Next(c, s, e) && ReleaseCount(c, s, [e]) == if Releases(s, e) then 1 else 0
  {
    assert Runs(c, Next(c, s, e), []);
  }

  /** While a slot is in use its holder can give it back. */
  lemma OneRelease(c: Limits, s: State) returns (es: seq<Event>)
    requires Inv(c, s) && s.gate.closed && s.gate.active > 0
    ensures Runs(c, s, es) && forall i | 0 <= i < |es| :: Finishes(es[i])
    ensures After(c, s, es).gate.active == s.gate.active - 1
  {
    if r :| r in s.leased {
      es := [Return(r)];
      OneStep(c, s, Return(r));
    } else {
      assert Holders(s) != {};
      var t :| t in Holders(s);
      if s.tasks[t].Waiting? && !s.tasks[t].interrupted {
        var s' := Next(c, s, Resume(t));
        OneStep(c, s, Resume(t));
        OneStep(c, s', Fail(t));
        RunsAppend(c, s, [Resume(t)], [Fail(t)]);
        es := [Resume(t)] + [Fail(t)];
        ClosedStep(c, s, Resume(t));
        StepKeeps(c, s, Resume(t));
        ClosedStep(c, s', Fail(t));
        return;
      }
      es := [if s.tasks[t].Waiting? then Resume(t) else Fail(t)];
      OneStep(c, s, es[0]);
    }
    ClosedStep(c, s, es[0]);
  }

  lemma {:induction false} Drain(c: Limits, s: State) returns (es: seq<Event>)
    requires Inv(c, s) && s.gate.closed
    ensures Runs(c, s, es) && (forall i | 0 <= i < |es| :: Finishes(es[i])) && Drained(After(c, s, es))
    decreases s.gate.active
  {
    es := [];
    if s.gate.active > 0 {
      var first := OneRelease(c, s);
      RunKeeps(c, s, first);
      ClosedPoolDrains(c, s, first);
      StaysClosed(c, s, first);
      var rest := Drain(c, After(c, s, first));
      RunsAppend(c, s, first, rest);
      es := first + rest;
    }
  }

  lemma {:induction false} StaysClosed(c: Limits, s: State, es: seq<Event>)
    requires Inv(c, s) && s.gate.closed && Runs(c, s, es)
    ensures After(c, s, es).gate.closed
    decreases |es|
  {
    if es != [] {
      ClosedStep(c, s, es[0]);
      StepKeeps(c, s, es[0]);
      StaysClosed(c, Next(c, s, es[0]), es[1..]);
    }
  }

  /** From every closed state that a run reaches, steps of the holders alone lead to a pool with no slot in use. */
  lemma ClosedPoolCanDrain(c: Limits, before: seq<Event>) returns (es: seq<Event>)
    requires Runs(c, INIT, before) && After(c, INIT, before).gate.closed
    ensures Runs(c, After(c, INIT, before), es) && forall i | 0 <= i < |es| :: Finishes(es[i])
    ensures Drained(After(c, After(c, INIT, before), es))
  {
    InitInv(c);
    RunKeeps(c, INIT, before);
    es := Drain(c, After(c, INIT, before));
  }
}
