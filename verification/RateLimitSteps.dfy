/** One call of the limiter on its contents: sweep, refuse or trim, and record. */
module RateLimitSteps {
  import opened RateLimitSpec
  import opened RateLimitStore

  /** The quota of a client whose ring has been trimmed: the contents afterwards and the decision. */
  function StepRing(p: Policy, now: real, st: Store, k: Key): (Store, Decision) {
    var r := Ring(st, k);
    if r != [] && |r| == p.maxRequests then (st, Rejected(429, RetrySeconds(r[0] + p.windowMs as real, now)))
    else (Recorded(now, st, k), Admitted)
  }

  function StepClient(p: Policy, now: real, st: Store, k: Key): (Store, Decision) {
    StepRing(p, now, Trimmed(p, now, st, k), k)
  }

  /** The refusal of a client for which there is no room until the first client expires. */
  function Refusal(p: Policy, now: real, s: Store): Decision
    requires s.order != []
  {
    Rejected(503, RetrySeconds(Expires(s.rings, s.order[0]) + p.windowMs as real, now))
  }

  /** One call once the expired clients are gone. */
  function StepSwept(p: Policy, now: real, st: Store, k: Key): (Store, Decision) {
    if k !in st.rings && |st.rings.Keys| >= p.maxClients && st.order != [] then
      (st, Refusal(p, now, st))
    else StepClient(p, now, st, k)
  }

  function Step(p: Policy, now: real, st: Store, k: Key): (Store, Decision) {
    StepSwept(p, now, SweptAll(p, now, st), k)
  }

  /** Trimming leaves a tracked client some times. */
  predicate Trims(p: Policy, now: real, st: Store, k: Key) {
    k in st.rings ==> Newer(st.rings[k], Cutoff(p, now)) != []
  }

  predicate HasRoom(p: Policy, s: Store, k: Key) {
    k in s.rings || |s.rings.Keys| < p.maxClients
  }

  /** The contents and the decision after a call are those of the naive limiter. */
  ghost predicate Follows(p: Policy, log: seq<Admission>, now: real, k: Key, st: Store, d: Decision)
    requires Usable(p)
  {
    Represents(p, LogWith(log, k, now, d), now, st) && Decides(p, log, k, now, d)
  }

  lemma StepRingDecides(p: Policy, log: seq<Admission>, now: real, t: Store, k: Key)
    requires Usable(p) && Ring(t, k) == Live(log, k, Cutoff(p, now)) && |Ring(t, k)| <= p.maxRequests
    requires k in Clients(log, Cutoff(p, now)) || |Clients(log, Cutoff(p, now))| < p.maxClients
    ensures Decides(p, log, k, now, StepRing(p, now, t, k).1)
  {
  }

  lemma RingWithinQuota(p: Policy, clock: real, rings: map<Key, seq<real>>, k: Key)
    requires RingsOk(p, clock, rings) && k in rings
    ensures |rings[k]| <= p.maxRequests
  {
  }

  lemma StepRingKeeps(p: Policy, log: seq<Admission>, now: real, t: Store, k: Key)
    requires Usable(p) && Represents(p, log, now, t) && |Ring(t, k)| <= p.maxRequests
    ensures var (st', d) := StepRing(p, now, t, k); Represents(p, LogWith(log, k, now, d), now, st')
  {
    if |Ring(t, k)| < p.maxRequests {
      RecordKeeps(p, log, now, t, k);
    }
  }

  lemma StepClientKeeps(p: Policy, log: seq<Admission>, now: real, st: Store, k: Key)
    requires Usable(p) && Represents(p, log, now, st)
    requires k in st.rings ==> Expires(st.rings, k) > Cutoff(p, now)
    requires k in Clients(log, Cutoff(p, now)) || |Clients(log, Cutoff(p, now))| < p.maxClients
    ensures Trims(p, now, st, k)
    ensures var (st', d) := StepClient(p, now, st, k); Follows(p, log, now, k, st', d)
  {
    if k in st.rings {
      NewerAll(st.rings[k], Cutoff(p, now), now);
    }
    TrimKeeps(p, log, now, st, k);
    var t := Trimmed(p, now, st, k);
    if k in t.rings {
      RingWithinQuota(p, now, t.rings, k);
    }
    StepRingDecides(p, log, now, t, k);
    StepRingKeeps(p, log, now, t, k);
  }

  /** A client for which there is no room is refused until the first client expires. */
  lemma NoRoomDecides(p: Policy, log: seq<Admission>, now: real, s: Store, k: Key)
    requires Usable(p) && Represents(p, log, now, s) && k !in s.rings && |s.rings.Keys| >= p.maxClients
    requires s.order != [] ==> Expires(s.rings, s.order[0]) > Cutoff(p, now)
    ensures s.order != []
    ensures Decides(p, log, k, now, Refusal(p, now, s))
  {
    SweptClients(p, log, now, s);
    FirstIsEarliest(p, log, now, s);
  }

  lemma RoomStepKeeps(p: Policy, log: seq<Admission>, now: real, s: Store, k: Key)
    requires Usable(p) && Represents(p, log, now, s) && HasRoom(p, s, k)
    requires s.order != [] ==> Expires(s.rings, s.order[0]) > Cutoff(p, now)
    ensures Trims(p, now, s, k)
    ensures var (st', d) := StepClient(p, now, s, k); Follows(p, log, now, k, st', d)
  {
    SweptClients(p, log, now, s);
    if k in s.rings {
      TrackedLater(p, log, now, s, k);
    }
    StepClientKeeps(p, log, now, s, k);
  }

  lemma RefusalFollows(p: Policy, log: seq<Admission>, now: real, k: Key, s: Store, d: Decision)
    requires Usable(p) && Represents(p, log, now, s) && d.Rejected? && Decides(p, log, k, now, d)
    ensures Follows(p, log, now, k, s, d)
  {
    assert LogWith(log, k, now, d) == log;
  }

  lemma NoRoomStep(p: Policy, now: real, s: Store, k: Key)
    requires !HasRoom(p, s, k) && s.order != []
    ensures StepSwept(p, now, s, k) == (s, Refusal(p, now, s))
  {
  }

  lemma NoRoomStepKeeps(p: Policy, log: seq<Admission>, now: real, s: Store, k: Key, st': Store, d: Decision)
    requires Usable(p) && Represents(p, log, now, s) && !HasRoom(p, s, k)
    requires s.order != [] ==> Expires(s.rings, s.order[0]) > Cutoff(p, now)
    requires StepSwept(p, now, s, k) == (st', d)
    ensures Follows(p, log, now, k, st', d)
  {
    NoRoomDecides(p, log, now, s, k);
    NoRoomStep(p, now, s, k);
    RefusalFollows(p, log, now, k, s, Refusal(p, now, s));
  }

  lemma StepSweptKeeps(p: Policy, log: seq<Admission>, now: real, s: Store, k: Key)
    requires Usable(p) && Represents(p, log, now, s)
    requires s.order != [] ==> Expires(s.rings, s.order[0]) > Cutoff(p, now)
    ensures Trims(p, now, s, k)
    ensures var (st', d) := StepSwept(p, now, s, k); Follows(p, log, now, k, st', d)
  {
    if HasRoom(p, s, k) {
      RoomStepKeeps(p, log, now, s, k);
      assert StepSwept(p, now, s, k) == StepClient(p, now, s, k);
    } else {
      NoRoomStepKeeps(p, log, now, s, k, StepSwept(p, now, s, k).0, StepSwept(p, now, s, k).1);
    }
  }

  lemma TrackedLater(p: Policy, log: seq<Admission>, now: real, s: Store, k: Key)
    requires Represents(p, log, now, s) && k in s.rings
    requires s.order != [] ==> Expires(s.rings, s.order[0]) > Cutoff(p, now)
    ensures Expires(s.rings, k) > Cutoff(p, now)
  {
    assert k in s.order;
    FirstExpiresFirst(s, k);
  }

  /** One call keeps the contents faithful to the log and decides as the naive limiter does. */
  lemma StepKeeps(p: Policy, log: seq<Admission>, clock: real, now: real, st: Store, k: Key)
    requires Usable(p) && Represents(p, log, clock, st) && clock <= now
    ensures Trims(p, now, SweptAll(p, now, st), k)
    ensures var (st', d) := Step(p, now, st, k); Follows(p, log, now, k, st', d)
  {
    TimePasses(p, log, clock, now, st);
    SweptAllKeeps(p, log, now, st);
    StepSweptKeeps(p, log, now, SweptAll(p, now, st), k);
  }
}
