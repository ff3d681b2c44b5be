/**
 Starting and stopping services: the handler's calls as functions of its fields, as methods with the
 handler's loops, and the trace of starts and stops that every sequence of calls leaves.
 */
module Lifecycle {
  import opened Sequences

  datatype Service = Service(id: nat, name: string)

  /** `ok` is false if the service raised an exception. */
  datatype Action = Start(s: Service, ok: bool) | Stop(s: Service, ok: bool)

  /** `atStartup` are the services registered when the last successful startup ran. */
  datatype Handler = Handler(
    services: seq<Service>,
    started: seq<Service>,
    startupStarted: bool,
    startupCompleted: bool,
    shutdownStarted: bool,
    quiescing: bool,
    shutdownFailed: bool,
    trace: seq<Action>,
    atStartup: seq<Service>)

  const FRESH := Handler([], [], false, false, false, false, false, [], [])

  // ---------- calls on values

  predicate Known(services: seq<Service>, name: string) {
    exists i | 0 <= i < |services| :: services[i].name == name
  }

  function Registered(services: seq<Service>, more: seq<Service>): seq<Service>
    decreases |more|
  {
    if more == [] then services
    else Registered(if Known(services, more[0].name) then services else services + [more[0]], more[1..])
  }

  /** How many services start before the first that raises. */
  function Starting(todo: seq<Service>, raising: set<Service>): (n: nat)
    ensures n <= |todo|
  {
    if todo == [] || todo[0] in raising then 0 else 1 + Starting(todo[1..], raising)
  }

  function Starts(ss: seq<Service>): (r: seq<Action>)
    ensures |r| == |ss| && forall i | 0 <= i < |ss| :: r[i] == Start(ss[i], true)
  {
    seq(|ss|, i requires 0 <= i < |ss| => Start(ss[i], true))
  }

  /** The last to start is the first to stop. */
  function Stops(started: seq<Service>, raising: set<Service>): seq<Action> {
    if started == [] then []
    else
      var s := started[|started| - 1];
      [Stop(s, s !in raising)] + Stops(started[..|started| - 1], raising)
  }

  predicate Raises(ss: seq<Service>, raising: set<Service>) {
    exists i | 0 <= i < |ss| :: ss[i] in raising
  }

  function StartedUp(h: Handler, raising: set<Service>, raisingStop: set<Service>): Handler {
    if h.startupStarted then h
    else
      var n := Starting(h.services, raising);
      var ok := n == |h.services|;
      h.(started := if ok then h.services else [],
         startupStarted := ok, startupCompleted := ok, shutdownStarted := false, quiescing := false,
         shutdownFailed := !ok && Raises(h.services[..n], raisingStop),
         trace := h.trace + Starts(h.services[..n])
                  + (if ok then [] else [Start(h.services[n], false)] + Stops(h.services[..n], raisingStop)),
         atStartup := if ok then h.services else h.atStartup)
  }

  /** Services that raise when quiesced only mark the shutdown as failed. */
  function Quiesced(h: Handler, raising: set<Service>): Handler {
    h.(quiescing := true, shutdownFailed := h.shutdownFailed || Raises(h.started, raising))
  }

  function ShutDown(h: Handler, raisingQuiesce: set<Service>, raising: set<Service>): Handler {
    if h.shutdownStarted then h
    else
      h.(started := [], startupStarted := false, startupCompleted := false, shutdownStarted := true, quiescing := true,
         shutdownFailed := h.shutdownFailed || Raises(h.started, raisingQuiesce) || Raises(h.started, raising),
         trace := h.trace + Stops(h.started, raising))
  }

  predicate Ready(h: Handler) {
    h.startupCompleted && !h.shutdownStarted && !h.quiescing
  }

  // ---------- the handler

  class LifecycleHandler {
    var services: seq<Service>
    var names: set<string>
    var startedServices: seq<Service>
    var startupStarted: bool
    var startupCompleted: bool
    var shutdownStarted: bool
    var quiescing: bool
    var shutdownFailed: bool
    ghost var trace: seq<Action>
    ghost var atStartup: seq<Service>

    ghost function View(): Handler
      reads this
    {
      Handler(services, startedServices, startupStarted, startupCompleted, shutdownStarted, quiescing,
        shutdownFailed, trace, atStartup)
    }

    /** The names are those of the registered services. */
    ghost predicate Valid()
      reads this
    {
      forall name :: name in names <==> Known(services, name)
    }

    constructor ()
      ensures Valid() && View() == FRESH
    {
      services, names, startedServices := [], {}, [];
      startupStarted, startupCompleted, shutdownStarted, quiescing, shutdownFailed := false, false, false, false, false;
      trace, atStartup := [], [];
    }

    method Register(more: seq<Service>)
      requires Valid()
      modifies this`services, this`names
      ensures Valid() && View() == old(View()).(services := Registered(old(services), more))
    {
      for i := 0 to |more|
        invariant Valid()
        invariant Registered(services, more[i..]) == Registered(old(services), more)
      {
        assert more[i..][1..] == more[i + 1..];
        if more[i].name in names {
          continue;
        }
        ghost var before := services;
        services := services + [more[i]];
        names := names + {more[i].name};
        KnownAppend(before, more[i]);
      }
    }

    /** Stops the started services, last first. */
    method StopStartedServices(raising: set<Service>)
      modifies this`startedServices, this`shutdownFailed, this`trace
      ensures startedServices == [] && trace == old(trace) + Stops(old(startedServices), raising)
      ensures shutdownFailed == (old(shutdownFailed) || Raises(old(startedServices), raising))
    {
      while startedServices != []
        invariant trace + Stops(startedServices, raising) == old(trace) + Stops(old(startedServices), raising)
        invariant (shutdownFailed || Raises(startedServices, raising)) == (old(shutdownFailed) || Raises(old(startedServices), raising))
        decreases |startedServices|
      {
        var last := |startedServices| - 1;
        var svc := startedServices[last];
        StopsLast(trace, startedServices, raising);
        RaisesLast(startedServices, raising);
        startedServices := startedServices[..last];
        trace := trace + [Stop(svc, svc !in raising)];
        if svc in raising {
          shutdownFailed := true;
        }
      }
    }

    /** `raising` and `raisingStop` are the services whose start and stop raise. */
    method Startup(raising: set<Service>, raisingStop: set<Service>) returns (raised: bool)
      modifies this`startedServices, this`startupStarted, this`startupCompleted, this`shutdownStarted, this`quiescing, this`shutdownFailed, this`trace, this`atStartup
      ensures View() == StartedUp(old(View()), raising, raisingStop)
      ensures raised <==> !old(startupStarted) && Raises(services, raising)
    {
      if startupStarted {
        return false;
      }
      startupStarted, quiescing, shutdownFailed, shutdownStarted, startupCompleted := true, false, false, false, false;
      startedServices := [];
      raised := false;
      ghost var n := Starting(services, raising);
      StartingFirst(services, raising);
      var i := 0;
      while i < |services| && !raised
        invariant 0 <= i <= n && startedServices == services[..i] && trace == old(trace) + Starts(services[..i])
        invariant raised ==> i == n < |services|
        invariant startupStarted && !quiescing && !shutdownFailed && !shutdownStarted && !startupCompleted
        invariant atStartup == old(atStartup)
        decreases |services| - i, !raised
      {
        var svc := services[i];
        if svc in raising {
          raised := true;
        } else {
          startedServices := startedServices + [svc];
          trace := trace + [Start(svc, true)];
          assert services[..i + 1] == services[..i] + [svc];
          assert Starts(services[..i + 1]) == Starts(services[..i]) + [Start(svc, true)];
          i := i + 1;
        }
      }
      if raised {
        trace := trace + [Start(services[i], false)];
        StopStartedServices(raisingStop);
        startupStarted := false;
        Regroup(old(trace) + Starts(services[..n]), [Start(services[n], false)], Stops(services[..n], raisingStop));
      } else {
        startupCompleted := true;
        atStartup := services;
        assert services[..i] == services[..n] == services;
        assert trace == old(trace) + Starts(services[..n]) + [];
      }
    }

    method Quiesce(raising: set<Service>)
      modifies this`quiescing, this`shutdownFailed
      ensures View() == Quiesced(old(View()), raising)
      ensures shutdownFailed <==> old(shutdownFailed) || exists i | 0 <= i < |startedServices| :: startedServices[i] in raising
    {
      quiescing := true;
      for i := 0 to |startedServices|
        invariant quiescing && shutdownFailed == (old(shutdownFailed) || Raises(startedServices[..i], raising))
      {
        assert startedServices[..i + 1][..i] == startedServices[..i];
        RaisesLast(startedServices[..i + 1], raising);
        if startedServices[i] in raising {
          shutdownFailed := true;
        }
      }
      assert startedServices[..|startedServices|] == startedServices;
    }

    method Shutdown(raisingQuiesce: set<Service>, raising: set<Service>)
      modifies this`startedServices, this`startupStarted, this`startupCompleted, this`shutdownStarted, this`quiescing, this`shutdownFailed, this`trace
      ensures View() == ShutDown(old(View()), raisingQuiesce, raising)
    {
      if shutdownStarted {
        return;
      }
      shutdownStarted := true;
      Quiesce(raisingQuiesce);
      StopStartedServices(raising);
      startupStarted, startupCompleted := false, false;
    }

    method IsReady() returns (ready: bool)
      ensures ready == Ready(View())
      ensures ready <==> startupCompleted && !shutdownStarted && !quiescing
    {
      ready := startupCompleted && !shutdownStarted && !quiescing;
    }
  }

  lemma KnownAppend(services: seq<Service>, s: Service)
    ensures forall name :: Known(services + [s], name) <==> Known(services, name) || name == s.name
  {
    forall name ensures Known(services + [s], name) <==> Known(services, name) || name == s.name {
      assert (services + [s])[|services|] == s;
      if i :| 0 <= i < |services| && services[i].name == name {
        assert (services + [s])[i].name == name;
      }
    }
  }

  lemma StopsLast(trace: seq<Action>, started: seq<Service>, raising: set<Service>)
    requires started != []
    ensures var s := started[|started| - 1];
      trace + Stops(started, raising) == trace + [Stop(s, s !in raising)] + Stops(started[..|started| - 1], raising)
  {
  }

  lemma RaisesLast(ss: seq<Service>, raising: set<Service>)
    requires ss != []
    ensures Raises(ss, raising) <==> Raises(ss[..|ss| - 1], raising) || ss[|ss| - 1] in raising
  {
    if i :| 0 <= i < |ss| && ss[i] in raising {
      assert i == |ss| - 1 || ss[..|ss| - 1][i] in raising;
    }
    var front := ss[..|ss| - 1];
    if i :| 0 <= i < |front| && front[i] in raising {
      assert ss[i] in raising;
    }
  }

  lemma {:induction false} StartingFirst(todo: seq<Service>, raising: set<Service>)
    ensures var n := Starting(todo, raising);
      && (forall i | 0 <= i < n :: todo[i] !in raising)
      && (n < |todo| ==> todo[n] in raising)
      && (n < |todo| <==> Raises(todo, raising))
  {
    if todo != [] && todo[0] !in raising {
      StartingFirst(todo[1..], raising);
      if i :| 0 <= i < |todo| && todo[i] in raising {
        assert todo[1..][i - 1] in raising;
      }
    }
  }

  // ---------- every sequence of calls

  datatype Call =
    | CallRegister(more: seq<Service>)
    | CallStartup(raising: set<Service>, raisingStop: set<Service>)
    | CallQuiesce(raising: set<Service>)
    | CallShutdown(raisingQuiesce: set<Service>, raising: set<Service>)

  function Called(h: Handler, c: Call): Handler {
    match c
    case CallRegister(more) => h.(services := Registered(h.services, more))
    case CallStartup(raising, raisingStop) => StartedUp(h, raising, raisingStop)
    case CallQuiesce(raising) => Quiesced(h, raising)
    case CallShutdown(raisingQuiesce, raising) => ShutDown(h, raisingQuiesce, raising)
  }

  function AfterCalls(calls: seq<Call>): Handler {
    if calls == [] then FRESH else Called(AfterCalls(calls[..|calls| - 1]), calls[|calls| - 1])
  }

  datatype Stack = Bad | Running(services: seq<Service>)

  /** A start puts a service on top; only the top service may be stopped; a failed start changes nothing. */
  function Apply(stack: Stack, a: Action): Stack {
    match a
    case Start(s, ok) => if stack.Running? && ok then Running(stack.services + [s]) else stack
    case Stop(s, _) =>
      if stack.Running? && stack.services != [] && stack.services[|stack.services| - 1] == s
      then Running(stack.services[..|stack.services| - 1]) else Bad
  }

  /** The services running after a trace, in the order in which they started, if it is last in, first out. */
  function Play(stack: Stack, trace: seq<Action>): Stack
    decreases |trace|
  {
    if trace == [] then stack else Play(Apply(stack, trace[0]), trace[1..])
  }

  lemma {:induction false} PlayAppend(stack: Stack, a: seq<Action>, b: seq<Action>)
    ensures Play(stack, a + b) == Play(Play(stack, a), b)
    decreases |a|
  {
    if a == [] {
      assert a + b == b;
    } else {
      assert (a + b)[1..] == a[1..] + b;
      PlayAppend(Apply(stack, a[0]), a[1..], b);
    }
  }

  lemma {:induction false} PlayStarts(below: seq<Service>, ss: seq<Service>)
    ensures Play(Running(below), Starts(ss)) == Running(below + ss)
    decreases |ss|
  {
    if ss == [] {
      assert below + ss == below;
    } else {
      assert Starts(ss)[1..] == Starts(ss[1..]);
      assert below + ss == (below + [ss[0]]) + ss[1..];
      PlayStarts(below + [ss[0]], ss[1..]);
    }
  }

  lemma {:induction false} PlayStops(started: seq<Service>, raising: set<Service>)
    ensures Play(Running(started), Stops(started, raising)) == Running([])
    decreases |started|
  {
    if started != [] {
      PlayStops(started[..|started| - 1], raising);
    }
  }

  ghost predicate Inv(h: Handler) {
    && Play(Running([]), h.trace) == Running(h.started)
    && h.startupStarted == h.startupCompleted
    && (!h.startupStarted ==> h.started == [])
    && (h.startupCompleted ==> h.started == h.atStartup)
  }

  lemma StartupKeeps(h: Handler, raising: set<Service>, raisingStop: set<Service>)
    requires Inv(h)
    ensures Inv(StartedUp(h, raising, raisingStop))
  {
    if !h.startupStarted {
      var n := Starting(h.services, raising);
      var up := h.services[..n];
      PlayAppend(Running([]), h.trace, Starts(up));
      PlayStarts([], up);
      assert [] + up == up;
      if n == |h.services| {
        assert up == h.services;
        assert StartedUp(h, raising, raisingStop).trace == h.trace + Starts(up);
      } else {
        var rest := [Start(h.services[n], false)] + Stops(up, raisingStop);
        PlayAppend(Running([]), h.trace + Starts(up), rest);
        assert rest[1..] == Stops(up, raisingStop);
        PlayStops(up, raisingStop);
      }
    }
  }

  lemma CallKeeps(h: Handler, c: Call)
    requires Inv(h)
    ensures Inv(Called(h, c))
  {
    match c
    case CallStartup(raising, raisingStop) => StartupKeeps(h, raising, raisingStop);
    case CallShutdown(_, raising) =>
      PlayAppend(Running([]), h.trace, Stops(h.started, raising));
      PlayStops(h.started, raising);
    case _ =>
  }

  /** In every sequence of calls starts and stops are last in, first out, and the handler knows exactly the running services. */
  lemma {:induction false} LastInFirstOut(calls: seq<Call>)
    ensures Inv(AfterCalls(calls))
  {
    if calls != [] {
      LastInFirstOut(calls[..|calls| - 1]);
      CallKeeps(AfterCalls(calls[..|calls| - 1]), calls[|calls| - 1]);
    }
  }

  function CountStarts(trace: seq<Action>, s: Service): nat {
    if trace == [] then 0 else CountStarts(trace[1..], s) + (if trace[0] == Start(s, true) then 1 else 0)
  }

  function CountStops(trace: seq<Action>, s: Service): nat {
    if trace == [] then 0 else CountStops(trace[1..], s) + (if trace[0].Stop? && trace[0].s == s then 1 else 0)
  }

  lemma {:induction false} BadStays(trace: seq<Action>)
    ensures Play(Bad, trace) == Bad
  {
    if trace != [] {
      BadStays(trace[1..]);
    }
  }

  lemma {:induction false} CountsMatch(below: seq<Service>, trace: seq<Action>, s: Service)
    requires Play(Running(below), trace).Running?
    ensures CountStarts(trace, s) + multiset(below)[s] == CountStops(trace, s) + multiset(Play(Running(below), trace).services)[s]
    decreases |trace|
  {
    if trace != [] {
      var next := Apply(Running(below), trace[0]);
      if next == Bad {
        BadStays(trace[1..]);
      } else {
        if trace[0].Stop? {
          assert below == below[..|below| - 1] + [trace[0].s];
        }
        CountsMatch(next.services, trace[1..], s);
      }
    }
  }

  /** Every successful start is undone by exactly one stop, except of what still runs; after a shutdown or a failed startup nothing does. */
  lemma StartedOnceStoppedOnce(calls: seq<Call>, s: Service)
    ensures var h := AfterCalls(calls);
      && CountStarts(h.trace, s) == CountStops(h.trace, s) + multiset(h.started)[s]
      && (!h.startupCompleted ==> CountStarts(h.trace, s) == CountStops(h.trace, s))
  {
    LastInFirstOut(calls);
    CountsMatch([], AfterCalls(calls).trace, s);
  }

  /** A ready handler's running services are all those that were registered at startup. */
  lemma ReadyMeansRunning(calls: seq<Call>)
    requires Ready(AfterCalls(calls))
    ensures var h := AfterCalls(calls); Play(Running([]), h.trace) == Running(h.atStartup) && h.started == h.atStartup
  {
    LastInFirstOut(calls);
  }

  /** Whenever startup clears the list of started services, the list is empty already. */
  lemma ClearDropsNothing(calls: seq<Call>)
    requires !AfterCalls(calls).startupStarted
    ensures AfterCalls(calls).started == [] && Play(Running([]), AfterCalls(calls).trace) == Running([])
  {
    LastInFirstOut(calls);
  }

  // ---------- what one call does

  /** The first of the offered services with its name, whose name was not registered before. */
  predicate Joins(services: seq<Service>, more: seq<Service>, i: nat) {
    i < |more| && !Known(services, more[i].name) && !Known(more[..i], more[i].name)
  }

  function Joining(services: seq<Service>, more: seq<Service>, n: nat): (r: seq<Service>)
    requires n <= |more|
  {
    if n == 0 then [] else Joining(services, more, n - 1) + (if Joins(services, more, n - 1) then [more[n - 1]] else [])
  }

  lemma {:induction false} RegisteredAppend(services: seq<Service>, more: seq<Service>, s: Service)
    ensures Registered(services, more + [s]) ==
      var r := Registered(services, more); if Known(r, s.name) then r else r + [s]
    decreases |more|
  {
    if more == [] {
      assert ([] + [s])[1..] == [];
    } else {
      assert (more + [s])[1..] == more[1..] + [s];
      RegisteredAppend(if Known(services, more[0].name) then services else services + [more[0]], more[1..], s);
    }
  }

  lemma {:induction false} KnownAfter(services: seq<Service>, more: seq<Service>, name: string)
    ensures Known(Registered(services, more), name) <==> Known(services, name) || Known(more, name)
    decreases |more|
  {
    if more != [] {
      var next := if Known(services, more[0].name) then services else services + [more[0]];
      KnownAfter(next, more[1..], name);
      KnownAppend(services, more[0]);
      KnownFirst(more, name);
    }
  }

  lemma KnownFirst(more: seq<Service>, name: string)
    requires more != []
    ensures Known(more, name) <==> more[0].name == name || Known(more[1..], name)
  {
    if i :| 0 <= i < |more| && more[i].name == name {
      assert i > 0 ==> more[1..][i - 1].name == name;
    }
    var rest := more[1..];
    if i :| 0 <= i < |rest| && rest[i].name == name {
      assert more[i + 1].name == name;
    }
  }

  /** Registering keeps what is there and adds, in order, the first offered service of each new name. */
  lemma {:induction false} RegistersFirstOfEachName(services: seq<Service>, more: seq<Service>, n: nat)
    requires n <= |more|
    ensures Registered(services, more[..n]) == services + Joining(services, more, n)
  {
    if n == 0 {
      assert services + [] == services && more[..0] == [];
    } else {
      RegistersFirstOfEachName(services, more, n - 1);
      assert more[..n] == more[..n - 1] + [more[n - 1]];
      RegisteredAppend(services, more[..n - 1], more[n - 1]);
      KnownAfter(services, more[..n - 1], more[n - 1].name);
    }
  }

  /** Startup from rest: ready with everything running if no start raises, and otherwise as before it with nothing running. */
  lemma StartupOutcome(h: Handler, raising: set<Service>, raisingStop: set<Service>)
    requires !h.startupStarted
    ensures var h' := StartedUp(h, raising, raisingStop);
      var raised := exists i | 0 <= i < |h.services| :: h.services[i] in raising;
      && (!raised ==> Ready(h') && h'.started == h.services && !h'.shutdownFailed && h'.trace == h.trace + Starts(h.services))
      && (raised ==> !Ready(h') && h'.started == [] && !h'.startupStarted && !h'.shutdownStarted)
      && h'.services == h.services
  {
    StartingFirst(h.services, raising);
    if Starting(h.services, raising) == |h.services| {
      assert h.services[..|h.services|] == h.services;
      assert h.trace + Starts(h.services) + [] == h.trace + Starts(h.services);
    }
  }

  /** A failed startup stopped exactly what it had started, and remembers whether a stop raised. */
  lemma FailedStartup(h: Handler, raising: set<Service>, raisingStop: set<Service>, n: nat)
    requires !h.startupStarted && n < |h.services| && h.services[n] in raising
    requires forall i | 0 <= i < n :: h.services[i] !in raising
    ensures var h' := StartedUp(h, raising, raisingStop);
      && h'.trace == h.trace + Starts(h.services[..n]) + ([Start(h.services[n], false)] + Stops(h.services[..n], raisingStop))
      && (h'.shutdownFailed <==> exists i | 0 <= i < n :: h.services[i] in raisingStop)
  {
    StartingFirst(h.services, raising);
    var m := Starting(h.services, raising);
    assert m == n;
    var up := h.services[..n];
    assert Raises(up, raisingStop) <==> exists i | 0 <= i < n :: h.services[i] in raisingStop by {
      assert forall i | 0 <= i < n :: up[i] == h.services[i];
    }
  }

  /** A second startup does nothing; a shutdown ends readiness, stops everything and lets a startup follow; a second one does nothing. */
  lemma ShutdownOutcome(h: Handler, raisingQuiesce: set<Service>, raising: set<Service>)
    ensures h.startupStarted ==> StartedUp(h, raising, raising) == h
    ensures h.shutdownStarted ==> ShutDown(h, raisingQuiesce, raising) == h
    ensures !h.shutdownStarted ==>
      var h' := ShutDown(h, raisingQuiesce, raising);
      && !Ready(h') && h'.started == [] && !h'.startupStarted && h'.trace == h.trace + Stops(h.started, raising)
      && (h'.shutdownFailed <==> h.shutdownFailed || exists i | 0 <= i < |h.started| :: h.started[i] in raisingQuiesce || h.started[i] in raising)
    ensures !Ready(Quiesced(h, raising)) && Quiesced(h, raising).started == h.started && Quiesced(h, raising).trace == h.trace
  {
  }
}
