/**
 The contents of the limiter as values: one ring of admission times per tracked client, the clients
 in expiry order, and the number of stored times. The lemmas say that sweeping expired clients,
 trimming a ring and recording an admission keep the contents faithful to the log.
 */
module RateLimitStore {
  import opened Sequences
  import opened RateLimitSpec

  datatype Store = Store(order: seq<Key>, rings: map<Key, seq<real>>, stored: int)

  function Ring(st: Store, k: Key): seq<real> {
    if k in st.rings then st.rings[k] else []
  }

  /** The ring after the head moved past every time at or before the cutoff. */
  function Newer(r: seq<real>, cutoff: real): seq<real> {
    if r == [] || r[0] > cutoff then r else Newer(r[1..], cutoff)
  }

  predicate Sorted(r: seq<real>, clock: real) {
    && (forall i, j | 0 <= i < j < |r| :: r[i] <= r[j])
    && (forall i | 0 <= i < |r| :: r[i] <= clock)
  }

  function Last(r: seq<real>): real
    requires r != []
  {
    r[|r| - 1]
  }

  function Total(order: seq<Key>, rings: map<Key, seq<real>>): nat {
    if order == [] then 0
    else (if order[0] in rings then |rings[order[0]]| else 0) + Total(order[1..], rings)
  }

  predicate Distinct(order: seq<Key>) {
    order == [] || (order[0] !in order[1..] && Distinct(order[1..]))
  }

  /** From now on every ring filters to the same times as the log. */
  ghost predicate Faithful(p: Policy, log: seq<Admission>, clock: real, st: Store) {
    forall k, c | c >= Cutoff(p, clock) :: Newer(Ring(st, k), c) == Live(log, k, c)
  }

  /** The order lists every tracked client once. */
  ghost predicate Lists(order: seq<Key>, keys: set<Key>) {
    Distinct(order) && forall k :: k in order <==> k in keys
  }

  /** Every ring holds some times, at most the quota, in the order of the clock. */
  ghost predicate RingsOk(p: Policy, clock: real, rings: map<Key, seq<real>>) {
    forall k | k in rings :: 1 <= |rings[k]| <= p.maxRequests && Sorted(rings[k], clock)
  }

  /** Clients come in the order in which they expire. */
  ghost predicate ByExpiry(order: seq<Key>, rings: map<Key, seq<real>>) {
    order != [] ==>
      (forall k | k in order[1..] :: Expires(rings, order[0]) <= Expires(rings, k)) && ByExpiry(order[1..], rings)
  }

  /** When the newest time of the client's ring was recorded. */
  function Expires(rings: map<Key, seq<real>>, k: Key): real {
    if k in rings && rings[k] != [] then Last(rings[k]) else 0.0
  }

  ghost predicate Shape(p: Policy, clock: real, st: Store) {
    && Lists(st.order, st.rings.Keys)
    && RingsOk(p, clock, st.rings)
    && ByExpiry(st.order, st.rings)
    && st.stored == Total(st.order, st.rings)
  }

  ghost predicate Represents(p: Policy, log: seq<Admission>, clock: real, st: Store) {
    Shape(p, clock, st) && Faithful(p, log, clock, st) && Chronological(log, clock)
  }

  // ---------- rings

  lemma {:induction false} NewerTwice(r: seq<real>, c: real, c': real)
    requires c <= c'
    ensures Newer(Newer(r, c), c') == Newer(r, c')
  {
    if r != [] && r[0] <= c {
      NewerTwice(r[1..], c, c');
    }
  }

  lemma {:induction false} NewerAll(r: seq<real>, c: real, clock: real)
    requires Sorted(r, clock)
    ensures |Newer(r, c)| <= |r| && Sorted(Newer(r, c), clock)
    ensures forall i | 0 <= i < |Newer(r, c)| :: Newer(r, c)[i] > c
    ensures Newer(r, c) == [] <==> r == [] || Last(r) <= c
    ensures Newer(r, c) != [] ==> Last(Newer(r, c)) == Last(r)
  {
    if r != [] && r[0] <= c {
      NewerAll(r[1..], c, clock);
    }
  }

  lemma {:induction false} NewerLast(r: seq<real>, c: real)
    ensures Newer(r, c) != [] ==> r != [] && Last(Newer(r, c)) == Last(r)
  {
    if r != [] && r[0] <= c {
      NewerLast(r[1..], c);
    }
  }

  lemma {:induction false} NewerAppend(r: seq<real>, c: real, now: real)
    requires Sorted(r, now)
    ensures Newer(r + [now], c) == if now > c then Newer(r, c) + [now] else []
  {
    if r == [] {
      assert Newer([now][1..], c) == [];
    } else if r[0] <= c {
      assert (r + [now])[1..] == r[1..] + [now];
      NewerAppend(r[1..], c, now);
    }
  }

  // ---------- the order of clients

  lemma {:induction false} TotalOutside(order: seq<Key>, rings: map<Key, seq<real>>, rings': map<Key, seq<real>>)
    requires forall k | k in order :: (k in rings <==> k in rings') && (k in rings ==> rings[k] == rings'[k])
    ensures Total(order, rings) == Total(order, rings')
    ensures ByExpiry(order, rings) ==> ByExpiry(order, rings')
  {
    if order != [] {
      TotalOutside(order[1..], rings, rings');
      assert forall k | k in order :: Expires(rings, k) == Expires(rings', k);
    }
  }

  lemma {:induction false} RemoveMembers(order: seq<Key>, k: Key)
    requires Distinct(order)
    ensures Distinct(Remove(order, k)) && forall z :: z in Remove(order, k) <==> z in order && z != k
  {
    if order != [] && order[0] != k {
      RemoveMembers(order[1..], k);
      assert ([order[0]] + Remove(order[1..], k))[1..] == Remove(order[1..], k);
    }
  }

  lemma {:induction false} AppendMembers(order: seq<Key>, k: Key)
    requires Distinct(order) && k !in order
    ensures Distinct(order + [k])
  {
    if order != [] {
      AppendMembers(order[1..], k);
      assert (order + [k])[1..] == order[1..] + [k];
    }
  }

  lemma {:induction false} RemoveExpiry(order: seq<Key>, k: Key, rings: map<Key, seq<real>>)
    requires Distinct(order) && ByExpiry(order, rings)
    ensures ByExpiry(Remove(order, k), rings)
  {
    if order != [] && order[0] != k {
      RemoveMembers(order[1..], k);
      RemoveExpiry(order[1..], k, rings);
      assert ([order[0]] + Remove(order[1..], k))[1..] == Remove(order[1..], k);
    }
  }

  lemma {:induction false} AppendExpiry(order: seq<Key>, k: Key, rings: map<Key, seq<real>>)
    requires ByExpiry(order, rings) && forall z | z in order :: Expires(rings, z) <= Expires(rings, k)
    ensures ByExpiry(order + [k], rings)
  {
    if order != [] {
      AppendExpiry(order[1..], k, rings);
      assert (order + [k])[1..] == order[1..] + [k];
    }
  }

  lemma {:induction false} RemoveTotal(order: seq<Key>, k: Key, rings: map<Key, seq<real>>)
    requires k in order
    ensures Total(order, rings) == Total(Remove(order, k), rings) + (if k in rings then |rings[k]| else 0)
  {
    if order[0] != k {
      RemoveTotal(order[1..], k, rings);
      assert ([order[0]] + Remove(order[1..], k))[1..] == Remove(order[1..], k);
    }
  }

  lemma {:induction false} AppendTotal(order: seq<Key>, k: Key, rings: map<Key, seq<real>>)
    ensures Total(order + [k], rings) == Total(order, rings) + (if k in rings then |rings[k]| else 0)
  {
    if order == [] {
      assert [k][1..] == [];
    } else {
      AppendTotal(order[1..], k, rings);
      assert (order + [k])[1..] == order[1..] + [k];
    }
  }

  // ---------- operations

  lemma TimePasses(p: Policy, log: seq<Admission>, clock: real, now: real, st: Store)
    requires Represents(p, log, clock, st) && clock <= now
    ensures Represents(p, log, now, st)
  {
  }

  /** The sweep removes the first client of the order, all of whose times have left the window. */
  function Swept(st: Store): Store
    requires st.order != []
  {
    var k := st.order[0];
    Store(st.order[1..], st.rings - {k}, st.stored - |Ring(st, k)|)
  }

  /** The sweep goes on until the first client of the order has not expired. */
  function SweptAll(p: Policy, now: real, st: Store): Store
    decreases |st.order|
  {
    if st.order != [] && Expires(st.rings, st.order[0]) <= Cutoff(p, now) then SweptAll(p, now, Swept(st)) else st
  }

  lemma SweepFaithful(p: Policy, log: seq<Admission>, now: real, st: Store)
    requires Faithful(p, log, now, st) && st.order != [] && st.order[0] in st.rings
    requires var r := st.rings[st.order[0]]; r != [] && Sorted(r, now) && Last(r) <= Cutoff(p, now)
    ensures Faithful(p, log, now, Swept(st))
  {
    var k := st.order[0];
    var st' := Swept(st);
    forall z, c | c >= Cutoff(p, now) ensures Newer(Ring(st', z), c) == Live(log, z, c) {
      assert Newer(Ring(st, z), c) == Live(log, z, c);
      if z == k {
        NewerAll(st.rings[k], c, now);
      }
    }
  }

  lemma ListsTail(order: seq<Key>, keys: set<Key>)
    requires Lists(order, keys) && order != []
    ensures Lists(order[1..], keys - {order[0]})
  {
    forall z ensures z in order[1..] <==> z in keys - {order[0]} {
      assert z in order <==> z == order[0] || z in order[1..];
    }
  }

  lemma ListsSome(order: seq<Key>, keys: set<Key>)
    requires Lists(order, keys) && |keys| > 0
    ensures order != []
  {
    assert order == [] ==> keys == {};
  }

  lemma FirstTracked(p: Policy, log: seq<Admission>, now: real, st: Store)
    requires Represents(p, log, now, st) && st.order != []
    ensures st.order[0] in st.rings && st.rings[st.order[0]] != []
  {
    assert st.order[0] in st.order;
  }

  lemma SweepKeeps(p: Policy, log: seq<Admission>, now: real, st: Store)
    requires Represents(p, log, now, st) && st.order != []
    requires Expires(st.rings, st.order[0]) <= Cutoff(p, now)
    ensures Represents(p, log, now, Swept(st))
  {
    FirstTracked(p, log, now, st);
    SweepFaithful(p, log, now, st);
    ListsTail(st.order, st.rings.Keys);
    assert (st.rings - {st.order[0]}).Keys == st.rings.Keys - {st.order[0]};
    TotalOutside(st.order[1..], st.rings, st.rings - {st.order[0]});
  }

  lemma {:induction false} SweptAllKeeps(p: Policy, log: seq<Admission>, now: real, st: Store)
    requires Represents(p, log, now, st)
    ensures Represents(p, log, now, SweptAll(p, now, st))
    ensures var st' := SweptAll(p, now, st); st'.order != [] ==> Expires(st'.rings, st'.order[0]) > Cutoff(p, now)
    decreases |st.order|
  {
    if st.order != [] && Expires(st.rings, st.order[0]) <= Cutoff(p, now) {
      SweepKeeps(p, log, now, st);
      SweptAllKeeps(p, log, now, Swept(st));
    }
  }

  /** No tracked client has expired: the tracked clients are the live ones. */
  lemma SweptClients(p: Policy, log: seq<Admission>, now: real, st: Store)
    requires Represents(p, log, now, st)
    requires st.order != [] ==> Expires(st.rings, st.order[0]) > Cutoff(p, now)
    ensures st.rings.Keys == Clients(log, Cutoff(p, now)) && |st.order| == |Clients(log, Cutoff(p, now))|
  {
    var c := Cutoff(p, now);
    forall k ensures k in st.rings <==> k in Clients(log, c) {
      LiveIffClient(log, k, c);
      assert Newer(Ring(st, k), c) == Live(log, k, c);
      if k in st.rings {
        assert k in st.order;
        FirstExpiresFirst(st, k);
        NewerAll(st.rings[k], c, now);
      }
    }
    DistinctSize(st.order, st.rings.Keys);
  }

  lemma FirstExpiresFirst(st: Store, k: Key)
    requires ByExpiry(st.order, st.rings) && k in st.order
    ensures Expires(st.rings, st.order[0]) <= Expires(st.rings, k)
  {
    assert k == st.order[0] || k in st.order[1..];
  }

  lemma {:induction false} DistinctSize(order: seq<Key>, keys: set<Key>)
    requires Lists(order, keys)
    ensures |order| == |keys|
  {
    if order != [] {
      ListsTail(order, keys);
      DistinctSize(order[1..], keys - {order[0]});
    } else {
      assert keys == {};
    }
  }

  /** A live client's newest ring entry is its newest live admission. */
  lemma RingExpires(p: Policy, log: seq<Admission>, now: real, st: Store, k: Key)
    requires Faithful(p, log, now, st) && k in Clients(log, Cutoff(p, now))
    requires Sorted(Ring(st, k), now) && Ring(st, k) != []
    ensures ExpiresAt(p, log, k, Cutoff(p, now), Last(Ring(st, k)) + p.windowMs as real)
  {
    assert Newer(Ring(st, k), Cutoff(p, now)) == Live(log, k, Cutoff(p, now));
    LiveIffClient(log, k, Cutoff(p, now));
    NewerAll(Ring(st, k), Cutoff(p, now), now);
  }

  /** The first client of the order is the first to expire. */
  lemma FirstIsEarliest(p: Policy, log: seq<Admission>, now: real, st: Store)
    requires Represents(p, log, now, st) && st.order != []
    requires Expires(st.rings, st.order[0]) > Cutoff(p, now)
    ensures FirstExpiry(p, log, Cutoff(p, now), Expires(st.rings, st.order[0]) + p.windowMs as real)
  {
    var c := Cutoff(p, now);
    var t := Expires(st.rings, st.order[0]) + p.windowMs as real;
    SweptClients(p, log, now, st);
    assert st.order[0] in st.order;
    RingExpires(p, log, now, st, st.order[0]);
    forall k, u | k in Clients(log, c) && ExpiresAt(p, log, k, c, u) ensures t <= u {
      RingExpires(p, log, now, st, k);
      assert k in st.order;
      FirstExpiresFirst(st, k);
    }
  }

  /** The client's ring is trimmed to the window in place; a client that is not tracked has nothing to trim. */
  function Trimmed(p: Policy, now: real, st: Store, k: Key): Store {
    var r := Newer(Ring(st, k), Cutoff(p, now));
    if k in st.rings then st.(rings := st.rings[k := r], stored := st.stored - (|st.rings[k]| - |r|)) else st
  }

  lemma TrimFaithful(p: Policy, log: seq<Admission>, now: real, st: Store, k: Key)
    requires Faithful(p, log, now, st)
    ensures Faithful(p, log, now, Trimmed(p, now, st, k))
    ensures Ring(Trimmed(p, now, st, k), k) == Live(log, k, Cutoff(p, now))
  {
    var c := Cutoff(p, now);
    var st' := Trimmed(p, now, st, k);
    assert Newer(Ring(st, k), c) == Live(log, k, c);
    forall z, d | d >= c ensures Newer(Ring(st', z), d) == Live(log, z, d) {
      NewerTwice(Ring(st, z), c, d);
      assert Newer(Ring(st, z), d) == Live(log, z, d);
    }
  }

  /** A ring that keeps its newest time keeps its place in the order. */
  lemma {:induction false} TrimExpiry(order: seq<Key>, rings: map<Key, seq<real>>, rings': map<Key, seq<real>>)
    requires ByExpiry(order, rings) && forall z | z in order :: Expires(rings, z) == Expires(rings', z)
    ensures ByExpiry(order, rings')
  {
    if order != [] {
      TrimExpiry(order[1..], rings, rings');
    }
  }

  lemma TrimTotal(order: seq<Key>, rings: map<Key, seq<real>>, k: Key, r: seq<real>)
    requires Distinct(order) && k in order && k in rings
    ensures Total(order, rings[k := r]) == Total(order, rings) - |rings[k]| + |r|
  {
    RemoveTotal(order, k, rings);
    RemoveTotal(order, k, rings[k := r]);
    RemoveMembers(order, k);
    TotalOutside(Remove(order, k), rings, rings[k := r]);
  }

  lemma TrimKeeps(p: Policy, log: seq<Admission>, now: real, st: Store, k: Key)
    requires Represents(p, log, now, st)
    requires k in st.rings ==> Expires(st.rings, k) > Cutoff(p, now)
    ensures Represents(p, log, now, Trimmed(p, now, st, k))
    ensures Ring(Trimmed(p, now, st, k), k) == Live(log, k, Cutoff(p, now))
  {
    TrimFaithful(p, log, now, st, k);
    if k in st.rings {
      var st' := Trimmed(p, now, st, k);
      NewerAll(st.rings[k], Cutoff(p, now), now);
      assert st'.rings.Keys == st.rings.Keys;
      TrimTotal(st.order, st.rings, k, st'.rings[k]);
      TrimExpiry(st.order, st.rings, st'.rings);
    }
  }

  /** The client moves to the end of the order with one more time in its ring. */
  function Recorded(now: real, st: Store, k: Key): Store {
    Store(Remove(st.order, k) + [k], st.rings[k := Ring(st, k) + [now]], st.stored + 1)
  }

  lemma RecordFaithful(p: Policy, log: seq<Admission>, now: real, st: Store, k: Key)
    requires Faithful(p, log, now, st) && Chronological(log, now) && Sorted(Ring(st, k), now)
    ensures Faithful(p, log + [Admission(k, now)], now, Recorded(now, st, k))
  {
    var st' := Recorded(now, st, k);
    forall z, c | c >= Cutoff(p, now) ensures Newer(Ring(st', z), c) == Live(log + [Admission(k, now)], z, c) {
      RecordFaithfulFor(p, log, now, st, k, z, c);
    }
  }

  lemma RecordFaithfulFor(p: Policy, log: seq<Admission>, now: real, st: Store, k: Key, z: Key, c: real)
    requires Newer(Ring(st, z), c) == Live(log, z, c) && Chronological(log, now) && Sorted(Ring(st, k), now)
    ensures Newer(Ring(Recorded(now, st, k), z), c) == Live(log + [Admission(k, now)], z, c)
  {
    LiveAppend(log, Admission(k, now), z, c);
    if z == k {
      RecordedRing(p, log, now, Ring(st, k), k, c);
    }
  }

  lemma RecordedRing(p: Policy, log: seq<Admission>, now: real, r: seq<real>, k: Key, c: real)
    requires Chronological(log, now) && Sorted(r, now) && Newer(r, c) == Live(log, k, c)
    ensures Newer(r + [now], c) == Live(log, k, c) + (if now > c then [now] else [])
  {
    NewerAppend(r, c, now);
    if now <= c {
      LiveEmpty(log, k, c, now);
    }
  }

  lemma RecordLists(order: seq<Key>, keys: set<Key>, k: Key)
    requires Lists(order, keys)
    ensures Lists(Remove(order, k) + [k], keys + {k})
  {
    RemoveMembers(order, k);
    AppendMembers(Remove(order, k), k);
  }

  lemma {:induction false} RemoveAbsent(order: seq<Key>, k: Key)
    requires k !in order
    ensures Remove(order, k) == order
  {
    if order != [] {
      RemoveAbsent(order[1..], k);
    }
  }

  lemma RecordTotal(order: seq<Key>, rings: map<Key, seq<real>>, k: Key, r: seq<real>)
    requires Lists(order, rings.Keys)
    ensures Total(Remove(order, k) + [k], rings[k := r]) == Total(order, rings) - (if k in rings then |rings[k]| else 0) + |r|
  {
    RemoveMembers(order, k);
    AppendTotal(Remove(order, k), k, rings[k := r]);
    TotalOutside(Remove(order, k), rings, rings[k := r]);
    if k in order {
      RemoveTotal(order, k, rings);
    } else {
      RemoveAbsent(order, k);
    }
  }

  lemma RecordExpiry(order: seq<Key>, rings: map<Key, seq<real>>, k: Key, now: real, r: seq<real>)
    requires Lists(order, rings.Keys) && ByExpiry(order, rings)
    requires forall z | z in rings :: rings[z] != [] && Last(rings[z]) <= now
    ensures ByExpiry(Remove(order, k) + [k], rings[k := r + [now]])
  {
    var rings' := rings[k := r + [now]];
    RemoveMembers(order, k);
    RemoveExpiry(order, k, rings);
    TotalOutside(Remove(order, k), rings, rings');
    AppendExpiry(Remove(order, k), k, rings');
  }

  lemma RecordRings(p: Policy, now: real, rings: map<Key, seq<real>>, k: Key, r: seq<real>)
    requires RingsOk(p, now, rings) && Sorted(r, now) && |r| < p.maxRequests
    ensures RingsOk(p, now, rings[k := r + [now]])
  {
    var r' := r + [now];
    assert Sorted(r', now);
  }

  lemma RecordShape(p: Policy, now: real, st: Store, k: Key)
    requires Shape(p, now, st) && |Ring(st, k)| < p.maxRequests
    ensures Shape(p, now, Recorded(now, st, k))
  {
    var rings' := st.rings[k := Ring(st, k) + [now]];
    RecordRings(p, now, st.rings, k, Ring(st, k));
    RecordLists(st.order, st.rings.Keys, k);
    assert rings'.Keys == st.rings.Keys + {k};
    RecordTotal(st.order, st.rings, k, rings'[k]);
    RecordExpiry(st.order, st.rings, k, now, Ring(st, k));
  }

  lemma ChronologicalAppend(log: seq<Admission>, now: real, k: Key)
    requires Chronological(log, now)
    ensures Chronological(log + [Admission(k, now)], now)
  {
  }

  lemma RecordKeeps(p: Policy, log: seq<Admission>, now: real, st: Store, k: Key)
    requires Represents(p, log, now, st) && |Ring(st, k)| < p.maxRequests
    ensures Represents(p, log + [Admission(k, now)], now, Recorded(now, st, k))
  {
    RecordFaithful(p, log, now, st, k);
    RecordShape(p, now, st, k);
    ChronologicalAppend(log, now, k);
  }
}
