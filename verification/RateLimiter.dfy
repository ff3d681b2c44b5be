/** The limiter itself: timestamp rings updated in place, inside an ordered dictionary of clients. */
module RateLimiter {
  import opened Sequences
  import opened RateLimitSpec
  import opened RateLimitStore
  import opened RateLimitSteps

  // ---------- rings

  /** The slot of a ring of `n` slots that lies `x` slots after slot 0. */
  method Slot(x: nat, n: nat) returns (i: nat)
    requires x < 2 * n
    ensures i == Wrapped(x, n)
  {
    i := x % n;
    assert x >= n ==> x == n + (x - n);
  }

  function Wrapped(x: nat, n: nat): nat
    requires x < 2 * n
  {
    if x < n then x else x - n
  }

  /**
   A fixed ring of timestamps with the expiry of its newest one. `times` are the stored times, oldest
   first, and `key` is the client.
   */
  class RateLimitState {
    const timestamps: array<real>
    var head: nat
    var count: nat
    var expiresAt: real
    ghost var times: seq<real>
    ghost const key: Key

    ghost predicate Valid()
      reads this, timestamps
    {
      && head < timestamps.Length && count <= timestamps.Length
      && |times| == count && forall i | 0 <= i < count :: times[i] == timestamps[Wrapped(head + i, timestamps.Length)]
    }

    constructor (capacity: nat, ghost key: Key)
      requires capacity > 0
      ensures Valid() && fresh(timestamps) && timestamps.Length == capacity && times == [] && this.key == key
    {
      this.key := key;
      timestamps := new real[capacity](_ => 0.0);
      head, count, expiresAt := 0, 0, 0.0;
      times := [];
    }

    /** Moves the head past every time at or before the cutoff. */
    method Expire(cutoff: real)
      requires Valid()
      modifies this`head, this`count, this`times
      ensures Valid() && times == Newer(old(times), cutoff) && count == |times|
    {
      while count > 0 && timestamps[head] <= cutoff
        invariant Valid()
        invariant Newer(times, cutoff) == Newer(old(times), cutoff)
        decreases count
      {
        head := Slot(head + 1, timestamps.Length);
        count := count - 1;
        times := times[1..];
      }
    }

    /** Writes a time behind the tail. */
    method Record(now: real, windowMs: nat)
      requires Valid() && count < timestamps.Length
      modifies this, timestamps
      ensures Valid() && times == old(times) + [now]
      ensures expiresAt == now + windowMs as real
    {
      var tail := Slot(head + count, timestamps.Length);
      timestamps[tail] := now;
      count := count + 1;
      expiresAt := now + windowMs as real;
      times := times + [now];
    }
  }

  /**
   One bounded rolling-window store. `log` is the history of all admissions it has granted and
   `rings` the contents of its clients' rings.
   */
  class Limiter {
    const policy: Policy
    var order: seq<Key>
    var clients: map<Key, RateLimitState>
    var stored: int
    ghost var log: seq<Admission>
    ghost var clock: real
    ghost var rings: map<Key, seq<real>>
    ghost var Repr: set<object>

    /** The client has a ring of its own with these times and the expiry of the newest one. */
    ghost predicate Tracks(k: Key, c: RateLimitState, times: seq<real>)
      reads c, c.timestamps
    {
      && c.key == k
      && c.timestamps.Length == policy.maxRequests && c.Valid()
      && c.times == times && times != [] && c.expiresAt == Last(times) + policy.windowMs as real
    }

    /** No two clients share a ring. */
    ghost predicate Separate(clients: map<Key, RateLimitState>) {
      forall j, k | j in clients && k in clients && j != k :: clients[j].timestamps != clients[k].timestamps
    }

    ghost predicate HeapOk()
      reads this`Repr, this`rings, this`clients, Repr
    {
      && this !in Repr
      && rings.Keys == clients.Keys && Separate(clients)
      && (forall k | k in clients :: clients[k] in Repr && clients[k].timestamps in Repr && Tracks(k, clients[k], rings[k]))
    }

    /** The contents as a value. */
    ghost function View(): Store
      reads this`order, this`rings, this`stored
    {
      Store(order, rings, stored)
    }

    ghost predicate Valid()
      reads this, Repr
    {
      HeapOk() && Usable(policy) && Represents(policy, log, clock, View())
    }

    constructor (policy: Policy, now: real)
      requires ValidPolicy(policy)
      ensures Valid() && log == [] && clock == now && this.policy == policy && fresh(Repr)
    {
      this.policy := policy;
      order, clients, stored := [], map[], 0;
      log, clock, rings := [], now, map[];
      Repr := {};
    }

    /** Takes the first client out. */
    method DropFirst()
      requires HeapOk() && order != [] && order[0] in clients
      modifies this`order, this`clients, this`stored, this`rings
      ensures HeapOk() && View() == Swept(old(View())) && clients.Keys == old(clients.Keys) - {old(order[0])}
    {
      var key := order[0];
      assert Tracks(key, clients[key], rings[key]);
      stored := stored - clients[key].count;
      clients, rings := clients - {key}, rings - {key};
      order := order[1..];
      assert clients.Keys == old(clients.Keys) - {key};
    }

    /** Forgets the first client of the order. */
    method Forget()
      requires HeapOk() && order != [] && Lists(order, clients.Keys)
      modifies this`order, this`clients, this`stored, this`rings
      ensures HeapOk() && Lists(order, clients.Keys) && View() == Swept(old(View()))
    {
      ListsTail(order, clients.Keys);
      assert order[0] in order;
      DropFirst();
    }

    /** Whether the first client of the order has expired. */
    method FirstExpired(now: real) returns (expired: bool)
      requires HeapOk() && order != [] && Lists(order, clients.Keys)
      ensures expired <==> Expires(rings, order[0]) <= Cutoff(policy, now)
    {
      assert order[0] in order;
      assert Tracks(order[0], clients[order[0]], rings[order[0]]);
      expired := clients[order[0]].expiresAt <= now;
    }

    /** Drops expired clients from the front of the order. */
    method ExpireClients(now: real)
      requires HeapOk() && Lists(order, clients.Keys)
      modifies this`order, this`clients, this`stored, this`rings
      ensures HeapOk() && Lists(order, clients.Keys) && View() == SweptAll(policy, now, old(View()))
    {
      while order != []
        invariant HeapOk() && Lists(order, clients.Keys)
        invariant SweptAll(policy, now, View()) == SweptAll(policy, now, old(View()))
        decreases |order|
      {
        var expired := FirstExpired(now);
        if !expired {
          break;
        }
        Forget();
      }
    }

    /** When the first client of the order expires. */
    method FirstExpiresAt() returns (t: real)
      requires HeapOk() && order != [] && Lists(order, clients.Keys)
      ensures t == Expires(rings, order[0]) + policy.windowMs as real
    {
      assert order[0] in order;
      assert Tracks(order[0], clients[order[0]], rings[order[0]]);
      t := clients[order[0]].expiresAt;
    }

    /** The ring is the client's own and holds what the store says. */
    ghost predicate Ready(client: RateLimitState, key: Key)
      reads this, Repr, client, client.timestamps
    {
      && client in Repr && client.timestamps in Repr && client.Valid() && client.key == key
      && client.timestamps.Length == policy.maxRequests && client.times == Ring(View(), key)
      && Separate(clients[key := client]) && (key in clients ==> clients[key] == client)
    }

    /** The ring of the client, or an empty one. */
    method Resolve(key: Key) returns (client: RateLimitState)
      requires HeapOk() && 1 <= policy.maxRequests
      modifies this`Repr
      ensures HeapOk() && Ready(client, key) && old(Repr) <= Repr && fresh(Repr - old(Repr))
      ensures key !in clients ==> fresh(client) && fresh(client.timestamps)
    {
      if key in clients {
        client := clients[key];
        assert Tracks(key, client, rings[key]);
        assert clients[key := client] == clients;
      } else {
        client := new RateLimitState(policy.maxRequests, key);
        Repr := Repr + {client, client.timestamps};
        forall k | k in clients ensures Tracks(k, clients[k], rings[k]) {
          assert old(Tracks(k, clients[k], rings[k]));
        }
      }
    }

    /** Every other client's ring is in order. */
    ghost predicate OthersOk(key: Key)
      reads this, Repr
      requires rings.Keys == clients.Keys
    {
      forall k | k in clients && k != key :: clients[k] in Repr && clients[k].timestamps in Repr && Tracks(k, clients[k], rings[k])
    }

    /** Moves the head of the client's ring past every time outside the window. */
    method TrimRing(client: RateLimitState, key: Key, now: real)
      requires HeapOk() && Ready(client, key)
      requires Trims(policy, now, View(), key)
      modifies client
      ensures OthersOk(key) && client.Valid() && client.times == Newer(old(client.times), Cutoff(policy, now))
      ensures key in clients ==> Tracks(key, client, client.times)
    {
      assert key in clients ==> Tracks(key, client, rings[key]);
      NewerLast(client.times, Cutoff(policy, now));
      client.Expire(Cutoff(policy, now));
      forall k | k in clients && k != key ensures Tracks(k, clients[k], rings[k]) {
        assert old(Tracks(k, clients[k], rings[k]));
      }
    }

    /** Counts what is left of a trimmed ring. */
    method Settle(client: RateLimitState, key: Key, before: nat)
      requires this !in Repr && rings.Keys == clients.Keys && Separate(clients) && OthersOk(key)
      requires key in clients ==> clients[key] == client && client in Repr && client.timestamps in Repr && Tracks(key, client, client.times)
      modifies this`stored, this`rings
      ensures HeapOk()
      ensures stored == old(stored) - (before - client.count)
      ensures rings == if key in old(rings) then old(rings)[key := client.times] else old(rings)
    {
      stored := stored - (before - client.count);
      if key in rings {
        rings := rings[key := client.times];
        assert Tracks(key, client, rings[key]);
      }
      forall k | k in clients && k != key ensures Tracks(k, clients[k], rings[k]) && clients[k] in Repr && clients[k].timestamps in Repr {
        assert old(Tracks(k, clients[k], rings[k]));
      }
    }

    /** Trims the client's ring to the window and counts what is left. */
    method Trim(client: RateLimitState, key: Key, now: real)
      requires HeapOk() && Ready(client, key)
      requires Trims(policy, now, View(), key)
      modifies this`stored, this`rings, client
      ensures HeapOk() && Ready(client, key)
      ensures rings == old(Trimmed(policy, now, View(), key).rings) && stored == old(Trimmed(policy, now, View(), key).stored)
    {
      var before := client.count;
      TrimRing(client, key, now);
      Settle(client, key, before);
    }

    /** Writes a time into a ring that no other client shares. */
    method Write(client: RateLimitState, key: Key, now: real)
      requires HeapOk() && Ready(client, key) && client.count < policy.maxRequests
      modifies client, client.timestamps
      ensures OthersOk(key) && Tracks(key, client, old(client.times) + [now])
    {
      ghost var all := clients[key := client];
      assert forall k | k in clients && k != key :: all[k].timestamps != all[key].timestamps;
      client.Record(now, policy.windowMs);
      forall k | k in clients && k != key ensures Tracks(k, clients[k], rings[k]) {
        assert old(Tracks(k, clients[k], rings[k]));
        assert all[k].timestamps != all[key].timestamps;
      }
    }

    method MoveToEnd(key: Key)
      modifies this`order
      ensures order == Remove(old(order), key) + [key]
    {
      order := Remove(order, key) + [key];
    }

    /** Counts the new time and moves the client to the end of the order. */
    method Insert(client: RateLimitState, key: Key)
      requires this !in Repr && rings.Keys == clients.Keys && Separate(clients[key := client])
      requires OthersOk(key) && Tracks(key, client, client.times) && client in Repr && client.timestamps in Repr
      modifies this`clients, this`stored, this`rings, this`order
      ensures HeapOk()
      ensures rings == old(rings)[key := client.times] && stored == old(stored) + 1
      ensures order == Remove(old(order), key) + [key]
    {
      stored, clients, rings := stored + 1, clients[key := client], rings[key := client.times];
      MoveToEnd(key);
      forall k | k in clients && k != key ensures Tracks(k, clients[k], rings[k]) && clients[k] in Repr && clients[k].timestamps in Repr {
        assert old(Tracks(k, clients[k], rings[k]));
      }
    }

    /** The oldest time in the client's ring. */
    method Oldest(client: RateLimitState, key: Key) returns (t: real)
      requires HeapOk() && Ready(client, key) && client.count > 0
      ensures Ring(View(), key) != [] && t == Ring(View(), key)[0]
    {
      t := client.timestamps[client.head];
      assert client.times[0] == client.timestamps[Wrapped(client.head + 0, client.timestamps.Length)];
    }

    /** Spends one slot of the client's quota, if there is one. */
    method Spend(client: RateLimitState, key: Key, now: real) returns (d: Decision)
      requires HeapOk() && Ready(client, key) && 1 <= policy.maxRequests
      modifies this`clients, this`stored, this`rings, this`order, client, client.timestamps
      ensures HeapOk() && log == old(log)
      ensures View() == old(StepRing(policy, now, View(), key).0) && d == old(StepRing(policy, now, View(), key).1)
    {
      if client.count == policy.maxRequests {
        var oldest := Oldest(client, key);
        return Rejected(429, RetrySeconds(oldest + policy.windowMs as real, now));
      }
      Write(client, key, now);
      Insert(client, key);
      return Admitted;
    }

    /** The quota of a client that is tracked or may be. */
    method AdmitClient(key: Key, now: real) returns (d: Decision)
      requires HeapOk() && 1 <= policy.maxRequests
      requires Trims(policy, now, View(), key)
      modifies this, Repr
      ensures HeapOk() && old(Repr) <= Repr && fresh(Repr - old(Repr))
      ensures View() == old(StepClient(policy, now, View(), key).0) && d == old(StepClient(policy, now, View(), key).1)
      ensures log == old(log)
    {
      var client := Resolve(key);
      Trim(client, key, now);
      d := Spend(client, key, now);
    }

    /** Refuses a client for which there is no room. */
    method Refuse(now: real) returns (d: Decision)
      requires HeapOk() && |clients.Keys| > 0 && Lists(order, clients.Keys)
      ensures order != [] && d == Rejected(503, RetrySeconds(Expires(rings, order[0]) + policy.windowMs as real, now))
    {
      ListsSome(order, clients.Keys);
      var earliest := FirstExpiresAt();
      d := Rejected(503, RetrySeconds(earliest, now));
    }

    /** Decides once the expired clients are gone. */
    method AdmitSwept(key: Key, now: real) returns (d: Decision)
      requires HeapOk() && Usable(policy) && Lists(order, clients.Keys)
      requires Trims(policy, now, View(), key)
      modifies this, Repr
      ensures HeapOk() && old(Repr) <= Repr && fresh(Repr - old(Repr))
      ensures View() == old(StepSwept(policy, now, View(), key).0) && d == old(StepSwept(policy, now, View(), key).1)
      ensures log == old(log)
    {
      if key !in clients && |clients.Keys| >= policy.maxClients {
        d := Refuse(now);
      } else {
        d := AdmitClient(key, now);
      }
    }

    /** Sweeps, decides and keeps the history. */
    method AdmitNow(key: Key, now: real) returns (d: Decision)
      requires HeapOk() && Usable(policy) && Lists(order, clients.Keys)
      requires Trims(policy, now, SweptAll(policy, now, View()), key)
      modifies this, Repr
      ensures HeapOk() && old(Repr) <= Repr && fresh(Repr - old(Repr))
      ensures View() == old(Step(policy, now, View(), key).0) && d == old(Step(policy, now, View(), key).1)
      ensures log == LogWith(old(log), key, now, d) && clock == now
    {
      ExpireClients(now);
      d := AdmitSwept(key, now);
      log, clock := LogWith(log, key, now, d), now;
    }

    /** Decides one request and, if it is granted, records it. */
    method Admit(key: Key, now: real) returns (d: Decision)
      requires Valid() && clock <= now
      modifies this, Repr
      ensures Valid() && clock == now && old(Repr) <= Repr && fresh(Repr - old(Repr))
      ensures Decides(policy, old(log), key, now, d)
      ensures log == LogWith(old(log), key, now, d)
    {
      StepKeeps(policy, log, clock, now, View(), key);
      d := AdmitNow(key, now);
    }
  }
}
