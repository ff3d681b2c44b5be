/**
 The rolling-window limiter as a filter over the complete log of admissions, and what its decisions
 mean over a whole run. `RateLimiter` is proved to make exactly these decisions.
 */
module RateLimitSpec {
  /** The digest of a client identity, read as a number; distinct identities have distinct digests. */
  type Key = nat

  datatype Policy = Policy(windowMs: nat, maxRequests: nat, maxClients: nat)

  const MAX_TIMESTAMP_SLOTS := 2_000_000

  predicate ValidPolicy(p: Policy) {
    && 1 <= p.windowMs <= 86_400_000 && 1 <= p.maxRequests <= 10_000 && 1 <= p.maxClients <= 100_000
    && p.maxRequests * p.maxClients <= MAX_TIMESTAMP_SLOTS
  }

  /** What the decisions need of a policy. */
  predicate Usable(p: Policy) {
    1 <= p.windowMs && 1 <= p.maxRequests && 1 <= p.maxClients
  }

  /** A policy keeps within a day, 10,000 requests, 100,000 clients and two million stored times; every such policy is usable. */
  lemma PolicyAccepted(p: Policy)
    ensures ValidPolicy(p) <==>
      && 1 <= p.windowMs <= 24 * 60 * 60 * 1000 && 1 <= p.maxRequests <= 10_000 && 1 <= p.maxClients <= 100_000
      && p.maxRequests * p.maxClients <= 2_000_000
    ensures p.windowMs >= 1 && p.maxRequests >= 1 && p.maxClients >= 1 ==> Usable(p)
  {
  }

  /** One admitted request, at a time in milliseconds. */
  datatype Admission = Admission(key: Key, at: real)

  datatype Decision = Admitted | Rejected(status: nat, retryAfter: nat)

  /** Times are recorded in the order of the clock, and none is later than `clock`. */
  predicate Chronological(log: seq<Admission>, clock: real) {
    && (forall i, j | 0 <= i < j < |log| :: log[i].at <= log[j].at)
    && (forall i | 0 <= i < |log| :: log[i].at <= clock)
  }

  /** The times of the client's admissions later than `cutoff`, oldest first. */
  function Live(log: seq<Admission>, k: Key, cutoff: real): (r: seq<real>)
    ensures forall i | 0 <= i < |r| :: r[i] > cutoff
  {
    if log == [] then []
    else
      var e := log[|log| - 1];
      Live(log[..|log| - 1], k, cutoff) + (if e.key == k && e.at > cutoff then [e.at] else [])
  }

  function Clients(log: seq<Admission>, cutoff: real): set<Key> {
    set e | e in log && e.at > cutoff :: e.key
  }

  function Cutoff(p: Policy, now: real): real {
    now - p.windowMs as real
  }

  /** Admitted: the client is known or there is room for one more, and it has quota left. */
  predicate Admits(p: Policy, log: seq<Admission>, k: Key, now: real) {
    var c := Cutoff(p, now);
    && (k in Clients(log, c) || |Clients(log, c)| < p.maxClients)
    && |Live(log, k, c)| < p.maxRequests
  }

  /** `t` is the time at which the first of the live clients has nothing live left. */
  ghost predicate FirstExpiry(p: Policy, log: seq<Admission>, cutoff: real, t: real) {
    && (exists k :: k in Clients(log, cutoff) && ExpiresAt(p, log, k, cutoff, t))
    && (forall k, u | k in Clients(log, cutoff) && ExpiresAt(p, log, k, cutoff, u) :: t <= u)
  }

  /** The client's newest live admission leaves the window at `t`. */
  ghost predicate ExpiresAt(p: Policy, log: seq<Admission>, k: Key, cutoff: real, t: real) {
    var r := Live(log, k, cutoff);
    r != [] && t == r[|r| - 1] + p.windowMs as real
  }

  function Ceil(x: real): (n: int)
    ensures n as real - 1.0 < x <= n as real
  {
    -((-x).Floor)
  }

  /** `_reject`: whole seconds until `available`, at least one. */
  function RetrySeconds(available: real, now: real): (r: nat) {
    var seconds := Ceil((available - now) / 1000.0);
    if seconds < 1 then 1 else seconds
  }

  /** The decision of the naive limiter. */
  ghost predicate Decides(p: Policy, log: seq<Admission>, k: Key, now: real, d: Decision)
    requires Usable(p)
  {
    var c := Cutoff(p, now);
    if k !in Clients(log, c) && |Clients(log, c)| >= p.maxClients then
      exists t :: FirstExpiry(p, log, c, t) && d == Rejected(503, RetrySeconds(t, now))
    else if |Live(log, k, c)| >= p.maxRequests then
      d == Rejected(429, RetrySeconds(Live(log, k, c)[0] + p.windowMs as real, now))
    else d == Admitted
  }

  lemma AdmitsIffDecided(p: Policy, log: seq<Admission>, k: Key, now: real, d: Decision)
    requires Usable(p) && Decides(p, log, k, now, d)
    ensures d == Admitted <==> Admits(p, log, k, now)
  {
  }

  /** 503 goes to a client that is not known and for which there is no room, 429 to one with room or known that is out of quota. */
  lemma StatusTells(p: Policy, log: seq<Admission>, k: Key, now: real, d: Decision)
    requires Usable(p) && Decides(p, log, k, now, d)
    ensures var c := now - p.windowMs as real;
      var room := k in Clients(log, c) || |Clients(log, c)| < p.maxClients;
      && (d.Rejected? && d.status == 503 <==> !room)
      && (d.Rejected? && d.status == 429 <==> room && |Live(log, k, c)| >= p.maxRequests)
      && (d.Admitted? <==> room && |Live(log, k, c)| < p.maxRequests)
  {
  }

  // ---------- filters

  /** Admissions of `k` are live exactly if `k` is a live client. */
  lemma {:induction false} LiveIffClient(log: seq<Admission>, k: Key, cutoff: real)
    ensures Live(log, k, cutoff) != [] <==> k in Clients(log, cutoff)
  {
    if log != [] {
      var e := log[|log| - 1];
      LiveIffClient(log[..|log| - 1], k, cutoff);
      assert log == log[..|log| - 1] + [e];
    }
  }

  lemma {:induction false} LiveSorted(log: seq<Admission>, k: Key, cutoff: real, clock: real)
    requires Chronological(log, clock)
    ensures forall i, j | 0 <= i < j < |Live(log, k, cutoff)| :: Live(log, k, cutoff)[i] <= Live(log, k, cutoff)[j]
    ensures forall i | 0 <= i < |Live(log, k, cutoff)| :: Live(log, k, cutoff)[i] <= clock
  {
    if log != [] {
      LiveSorted(log[..|log| - 1], k, cutoff, log[|log| - 1].at);
    }
  }

  lemma {:induction false} LiveEmpty(log: seq<Admission>, k: Key, cutoff: real, clock: real)
    requires Chronological(log, clock) && clock <= cutoff
    ensures Live(log, k, cutoff) == []
  {
    if log != [] {
      LiveEmpty(log[..|log| - 1], k, cutoff, clock);
    }
  }

  /** A client whose newest live admission has left the window has no live admission. */
  lemma {:induction false} NewestExpired(log: seq<Admission>, k: Key, c: real, c': real, clock: real)
    requires Chronological(log, clock) && c <= c'
    requires Live(log, k, c) == [] || Live(log, k, c)[|Live(log, k, c)| - 1] <= c'
    ensures Live(log, k, c') == []
  {
    if log != [] {
      var e := log[|log| - 1];
      if e.key == k && e.at > c {
        LiveEmpty(log, k, c', e.at);
      } else {
        NewestExpired(log[..|log| - 1], k, c, c', e.at);
      }
    }
  }

  /** `r'` is `r` without its first `n` times, which are at or before the cutoff. */
  ghost predicate Drops(r: seq<real>, r': seq<real>, n: nat, cutoff: real) {
    n <= |r| && r' == r[n..] && forall i | 0 <= i < n :: r[i] <= cutoff
  }

  /** Raising the cutoff drops a prefix: exactly the times at or before the new cutoff. */
  lemma {:induction false} LiveShrinks(log: seq<Admission>, k: Key, c: real, c': real, clock: real) returns (n: nat)
    requires Chronological(log, clock) && c <= c'
    ensures Drops(Live(log, k, c), Live(log, k, c'), n, c')
  {
    n := 0;
    if log != [] {
      var e := log[|log| - 1];
      var l := log[..|log| - 1];
      n := LiveShrinks(l, k, c, c', e.at);
      if e.key == k && e.at > c {
        LiveSorted(l, k, c, e.at);
        if e.at <= c' {
          LiveEmpty(l, k, c', e.at);
        }
        n := DropsAppend(Live(l, k, c), Live(l, k, c'), n, c', e.at);
      }
    }
  }

  lemma DropsAppend(r: seq<real>, r': seq<real>, n: nat, cutoff: real, t: real) returns (m: nat)
    requires Drops(r, r', n, cutoff)
    requires t <= cutoff ==> r' == []
    ensures Drops(r + [t], r' + (if t > cutoff then [t] else []), m, cutoff)
  {
    m := if t > cutoff then n else n + 1;
    assert (r + [t])[m..] == if t > cutoff then r[n..] + [t] else [];
  }

  lemma {:induction false} ClientsShrink(log: seq<Admission>, c: real, c': real)
    requires c <= c'
    ensures Clients(log, c') <= Clients(log, c)
  {
  }

  // ---------- whole runs

  /** The log after a sequence of calls, each a client and the clock reading. */
  function LogAfter(p: Policy, calls: seq<Admission>): seq<Admission> {
    if calls == [] then []
    else
      var call := calls[|calls| - 1];
      var log := LogAfter(p, calls[..|calls| - 1]);
      if Admits(p, log, call.key, call.at) then log + [call] else log
  }

  function LogWith(log: seq<Admission>, k: Key, now: real, d: Decision): seq<Admission> {
    if d.Admitted? then log + [Admission(k, now)] else log
  }

  /** A limiter that decides as the naive one does has, after every sequence of calls, the log of the naive one. */
  lemma DecisionsMakeTheLog(p: Policy, calls: seq<Admission>, k: Key, now: real, d: Decision)
    requires Usable(p) && Decides(p, LogAfter(p, calls), k, now, d)
    ensures LogWith(LogAfter(p, calls), k, now, d) == LogAfter(p, calls + [Admission(k, now)])
  {
    assert (calls + [Admission(k, now)])[..|calls|] == calls;
    AdmitsIffDecided(p, LogAfter(p, calls), k, now, d);
  }

  lemma {:induction false} LogChronological(p: Policy, calls: seq<Admission>, clock: real)
    requires Chronological(calls, clock)
    ensures Chronological(LogAfter(p, calls), clock)
  {
    if calls != [] {
      LogChronological(p, calls[..|calls| - 1], calls[|calls| - 1].at);
    }
  }

  lemma LiveAppend(log: seq<Admission>, e: Admission, k: Key, cutoff: real)
    ensures Live(log + [e], k, cutoff) == Live(log, k, cutoff) + (if e.key == k && e.at > cutoff then [e.at] else [])
  {
    assert (log + [e])[..|log|] == log;
  }

  /** An admitted call comes at least a window after the admission that lies the whole quota before it. */
  lemma SpanOfLast(p: Policy, log: seq<Admission>, call: Admission, k: Key, first: real, i: nat)
    requires Chronological(log, call.at) && Admits(p, log, call.key, call.at) && call.key == k && first < call.at
    requires i + p.maxRequests == |Live(log, k, first)|
    ensures p.maxRequests > 0 ==> call.at - Live(log, k, first)[i] >= p.windowMs as real
  {
    var c := Cutoff(p, call.at);
    if first <= c {
      var n := LiveShrinks(log, k, first, c, call.at);
      assert |Live(log, k, first)| - n < p.maxRequests;
    } else {
      var n := LiveShrinks(log, k, c, first, call.at);
    }
  }

  /**
   No window ever holds more than the quota: any `maxRequests + 1` admissions of one client, in any
   run, span at least the window. `first` is a cutoff below every admission.
   */
  lemma {:induction false} QuotaOverAnyRun(p: Policy, calls: seq<Admission>, clock: real, k: Key, first: real, i: nat)
    requires Usable(p) && Chronological(calls, clock)
    requires forall j | 0 <= j < |calls| :: first < calls[j].at
    requires i + p.maxRequests < |Live(LogAfter(p, calls), k, first)|
    ensures var all := Live(LogAfter(p, calls), k, first);
      all[i + p.maxRequests] - all[i] >= p.windowMs as real
  {
    if calls != [] {
      var call := calls[|calls| - 1];
      var before := calls[..|calls| - 1];
      var log := LogAfter(p, before);
      var all := Live(log, k, first);
      LogChronological(p, before, call.at);
      LiveAppend(log, call, k, first);
      if i + p.maxRequests < |all| {
        QuotaOverAnyRun(p, before, call.at, k, first, i);
      } else {
        SpanOfLast(p, log, call, k, first, i);
      }
    }
  }

  /** No more clients than allowed are ever live, now or later. */
  lemma {:induction false} ClientCapOverAnyRun(p: Policy, calls: seq<Admission>, clock: real, now: real)
    requires Usable(p) && Chronological(calls, clock) && clock <= now
    ensures |Clients(LogAfter(p, calls), Cutoff(p, now))| <= p.maxClients
  {
    if calls != [] {
      var call := calls[|calls| - 1];
      var log := LogAfter(p, calls[..|calls| - 1]);
      var c := Cutoff(p, call.at);
      ClientCapOverAnyRun(p, calls[..|calls| - 1], call.at, call.at);
      var log' := LogAfter(p, calls);
      assert Clients(log', c) <= Clients(log, c) + {call.key};
      SubsetSize(Clients(log', c), if Admits(p, log, call.key, call.at) then Clients(log, c) + {call.key} else Clients(log, c));
      ClientsShrink(log', c, Cutoff(p, now));
      SubsetSize(Clients(log', Cutoff(p, now)), Clients(log', c));
    }
  }

  lemma {:induction false} SubsetSize<T>(a: set<T>, b: set<T>)
    requires a <= b
    ensures |a| <= |b|
    ensures a != b ==> |a| < |b|
  {
    assert b == a + (b - a);
    assert a != b ==> |b - a| > 0;
  }

  // ---------- Retry-After

  function After(now: real, seconds: nat): real {
    now + 1000.0 * seconds as real
  }

  /** The seconds are the least positive whole number after which `available` is reached. */
  lemma RetrySecondsLeast(available: real, now: real, s: nat)
    requires s >= 1
    ensures After(now, RetrySeconds(available, now)) >= available
    ensures s < RetrySeconds(available, now) ==> After(now, s) < available
  {
    var x := (available - now) / 1000.0;
    assert available - now == 1000.0 * x;
  }

  /** An exhausted client is refused until its oldest live admission leaves the window, and served from then on. */
  lemma QuotaRetryExact(p: Policy, log: seq<Admission>, k: Key, now: real, t: real)
    requires Usable(p) && Chronological(log, now) && now <= t
    requires |Clients(log, Cutoff(p, now))| <= p.maxClients
    requires |Live(log, k, Cutoff(p, now))| == p.maxRequests
    ensures Admits(p, log, k, t) <==> t >= Live(log, k, Cutoff(p, now))[0] + p.windowMs as real
  {
    var c, c' := Cutoff(p, now), Cutoff(p, t);
    var r := Live(log, k, c);
    var n := LiveShrinks(log, k, c, c', now);
    LiveIffClient(log, k, c);
    LiveIffClient(log, k, c');
    ClientsShrink(log, c, c');
    SubsetSize(Clients(log, c'), Clients(log, c));
    var r' := Live(log, k, c');
    assert n == 0 ==> r' == r && r'[0] > c';
  }

  /** Before the first expiry every live client stays live. */
  lemma StaysLive(p: Policy, log: seq<Admission>, z: Key, now: real, available: real, t: real)
    requires Chronological(log, now) && now <= t < available && z in Clients(log, Cutoff(p, now))
    requires FirstExpiry(p, log, Cutoff(p, now), available)
    ensures z in Clients(log, Cutoff(p, t))
  {
    var c, c' := Cutoff(p, now), Cutoff(p, t);
    LiveIffClient(log, z, c);
    LiveIffClient(log, z, c');
    var r := Live(log, z, c);
    var n := LiveShrinks(log, z, c, c', now);
    assert ExpiresAt(p, log, z, c, r[|r| - 1] + p.windowMs as real);
    assert r[|r| - 1] > c';
  }

  /** An unknown client at full capacity is refused until the first live client expires, and served from then on. */
  lemma CapacityRetryExact(p: Policy, log: seq<Admission>, k: Key, now: real, available: real, t: real)
    requires Usable(p) && Chronological(log, now) && now <= t
    requires k !in Clients(log, Cutoff(p, now)) && |Clients(log, Cutoff(p, now))| == p.maxClients
    requires FirstExpiry(p, log, Cutoff(p, now), available)
    ensures Admits(p, log, k, t) <==> t >= available
  {
    var c, c' := Cutoff(p, now), Cutoff(p, t);
    LiveIffClient(log, k, c');
    ClientsShrink(log, c, c');
    if t >= available {
      var z :| z in Clients(log, c) && ExpiresAt(p, log, z, c, available);
      NewestExpired(log, z, c, c', now);
      LiveIffClient(log, z, c');
      SubsetSize(Clients(log, c'), Clients(log, c));
    } else {
      forall z | z in Clients(log, c) ensures z in Clients(log, c') {
        StaysLive(p, log, z, now, available, t);
      }
      assert Clients(log, c') == Clients(log, c);
    }
  }

  /** With no other admissions in between, the client is refused after fewer seconds and admitted after the announced ones. */
  ghost predicate ExactRetry(p: Policy, log: seq<Admission>, k: Key, now: real, seconds: nat) {
    && seconds >= 1
    && Admits(p, log, k, After(now, seconds))
    && forall s: nat | 1 <= s < seconds :: !Admits(p, log, k, After(now, s))
  }

  lemma RetryExactAt(p: Policy, log: seq<Admission>, k: Key, now: real, available: real)
    requires forall t: real | now <= t :: Admits(p, log, k, t) <==> t >= available
    ensures ExactRetry(p, log, k, now, RetrySeconds(available, now))
  {
    RetrySecondsLeast(available, now, 1);
    forall s: nat | 1 <= s < RetrySeconds(available, now) ensures !Admits(p, log, k, After(now, s)) {
      RetrySecondsLeast(available, now, s);
    }
  }

  lemma QuotaRetryAfter(p: Policy, log: seq<Admission>, k: Key, now: real)
    requires Usable(p) && Chronological(log, now)
    requires |Clients(log, Cutoff(p, now))| <= p.maxClients
    requires |Live(log, k, Cutoff(p, now))| == p.maxRequests
    ensures ExactRetry(p, log, k, now, RetrySeconds(Live(log, k, Cutoff(p, now))[0] + p.windowMs as real, now))
  {
    var available := Live(log, k, Cutoff(p, now))[0] + p.windowMs as real;
    forall t: real | now <= t ensures Admits(p, log, k, t) <==> t >= available {
      QuotaRetryExact(p, log, k, now, t);
    }
    RetryExactAt(p, log, k, now, available);
  }

  lemma CapacityRetryAfter(p: Policy, log: seq<Admission>, k: Key, now: real, available: real)
    requires Usable(p) && Chronological(log, now)
    requires k !in Clients(log, Cutoff(p, now)) && |Clients(log, Cutoff(p, now))| == p.maxClients
    requires FirstExpiry(p, log, Cutoff(p, now), available)
    ensures ExactRetry(p, log, k, now, RetrySeconds(available, now))
  {
    forall t: real | now <= t ensures Admits(p, log, k, t) <==> t >= available {
      CapacityRetryExact(p, log, k, now, available, t);
    }
    RetryExactAt(p, log, k, now, available);
  }

  lemma RejectedRetry(p: Policy, log: seq<Admission>, k: Key, now: real, d: Decision)
    requires Usable(p) && Chronological(log, now)
    requires |Clients(log, Cutoff(p, now))| <= p.maxClients && |Live(log, k, Cutoff(p, now))| <= p.maxRequests
    requires Decides(p, log, k, now, d) && d.Rejected?
    ensures d.status == 429 || d.status == 503
    ensures ExactRetry(p, log, k, now, d.retryAfter)
  {
    var c := Cutoff(p, now);
    if k !in Clients(log, c) && |Clients(log, c)| >= p.maxClients {
      var t :| FirstExpiry(p, log, c, t) && d == Rejected(503, RetrySeconds(t, now));
      CapacityRetryAfter(p, log, k, now, t);
    } else {
      QuotaRetryAfter(p, log, k, now);
    }
  }

  /** Retry-After is exact for both rejections, at every point of every run. */
  lemma RetryAfterExact(p: Policy, calls: seq<Admission>, k: Key, now: real, d: Decision)
    requires Usable(p) && Chronological(calls, now)
    requires Decides(p, LogAfter(p, calls), k, now, d) && d.Rejected?
    ensures d.status == 429 || d.status == 503
    ensures ExactRetry(p, LogAfter(p, calls), k, now, d.retryAfter)
  {
    LogChronological(p, calls, now);
    ClientCapOverAnyRun(p, calls, now, now);
    LiveAtMostQuota(p, calls, now, k);
    RejectedRetry(p, LogAfter(p, calls), k, now, d);
  }

  /** No client ever has more live admissions than its quota. */
  lemma {:induction false} LiveAtMostQuota(p: Policy, calls: seq<Admission>, now: real, k: Key)
    requires Usable(p) && Chronological(calls, now)
    ensures |Live(LogAfter(p, calls), k, Cutoff(p, now))| <= p.maxRequests
  {
    if calls != [] {
      var call := calls[|calls| - 1];
      var before := calls[..|calls| - 1];
      var log := LogAfter(p, before);
      LiveAtMostQuota(p, before, call.at, k);
      LogChronological(p, before, call.at);
      LiveAppend(log, call, k, Cutoff(p, now));
      var n := LiveShrinks(log, k, Cutoff(p, call.at), Cutoff(p, now), call.at);
    }
  }
}
