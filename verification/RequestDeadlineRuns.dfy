/**
 Every interleaving of one request's owner with the application, the reader of the server's messages,
 the body timers, the total deadline and a mutation: what reaches the wire, and what abandonment means.
 */
module RequestDeadlineRuns {
  import opened Options
  import opened RequestDeadline

  /**
   Who made the work raise CancelledError: its owner through `work.cancel()`, the timer of a body read
   of its own, the owner's own cancellation while it awaited the work, or the drain at shutdown.
   */
  datatype Canceller = ByOwner | ByBodyTimer | ThroughAwait | ByDrain

  /**
   The application's task. It follows the protocol: one start, then bodies, the last of them final.
   `sending` is the message whose send has not returned. A cancelled task may catch the exception and go on.
   */
  datatype App = App(
    finished: bool,
    cancels: set<Canceller>,
    saidStart: bool,
    saidFinal: bool,
    receiving: bool,
    sending: Option<Message>)

  /** Whether the reader still reads, has returned, or has raised an exception. */
  datatype Reader = Reading | Ended | Broken

  datatype Run = Waiting | SendingTimeout(count: nat) | AwaitingWork | Over

  /** A mutation on its way to COMMIT. */
  datatype Mutation = NoMutation | Running | Refused | Checked | Committed

  datatype State = State(owner: Owner, app: App, reader: Reader, run: Run, mutation: Mutation, clock: real)

  datatype Event =
    | Tick(elapsed: nat)
    | ReadDisconnect
    | ReadError
    | ReadFailure
    | AskForBody
    | BodyTimeout
    | Body(more: bool)
    | AppSend(m: Message)
    | AppSendDone
    | AppSendError
    | AppFinish
    | Decide(done: bool)
    | SendTimeoutMessage
    | SendTimeoutError
    | WorkDone
    | OwnerCancelled
    | DrainExpired
    | BeginMutation
    | Check
    | LastCheck
    | Commit

  const INIT := State(FRESH, App(false, {}, false, false, false, None), Reading, Waiting, NoMutation, 0.0)

  predicate Enabled(s: State, e: Event) {
    match e
    case Tick(_) => true
    case ReadDisconnect => s.reader.Reading?
    case ReadError => s.reader.Reading?
    case ReadFailure => s.reader.Reading?
    case AskForBody => !s.app.finished && !s.app.receiving
    case BodyTimeout => !s.app.finished && s.app.receiving
    case Body(_) => !s.app.finished && s.app.receiving
    case AppSend(m) =>
      && !s.app.finished && s.app.sending == None
      && (m == AppStart || m.AppBody?)
      && (m == AppStart <==> !s.app.saidStart) && !s.app.saidFinal
    case AppSendDone => !s.app.finished && s.app.sending.Some?
    case AppSendError => !s.app.finished && s.app.sending.Some?
    case AppFinish => !s.app.finished
    case Decide(done) =>
      && s.run == Waiting
      && (!done ==> !s.app.finished && s.reader.Reading?)
      && (done ==> s.app.finished || !s.reader.Reading? || s.owner.interrupted || s.owner.completed)
    case SendTimeoutMessage => s.run.SendingTimeout? && s.run.count < 2
    case SendTimeoutError => s.run.SendingTimeout? && s.run.count > 0
    case WorkDone => (s.run == AwaitingWork && s.app.finished) || s.run == SendingTimeout(2)
    case OwnerCancelled => s.run != Over
    case DrainExpired => !s.app.finished
    case BeginMutation => !s.app.finished && s.mutation == NoMutation
    case Check => s.mutation == Running
    case LastCheck => s.mutation == Running
    case Commit => s.mutation == Checked
  }

  /** A cancellation reaches work that is not done; `work.cancel()` has no effect on work that is. */
  function Cancel(a: App, who: Canceller): App {
    if a.finished then a else a.(cancels := a.cancels + {who})
  }

  /** `work.cancelling()`: someone has called `work.cancel()`. */
  predicate Cancelling(a: App) {
    ByOwner in a.cancels || ThroughAwait in a.cancels || ByDrain in a.cancels
  }

  /** The owner leaves through its final clean-up. */
  function End(s: State): State {
    var (owner, cancel) := Finished(s.owner, s.app.finished, Cancelling(s.app));
    s.(owner := owner, app := if cancel then Cancel(s.app, ByOwner) else s.app, run := Over)
  }

  /** The owner has decided, and has not acted on it yet. */
  function Settled(s: State, done: bool): State {
    var (owner, _, cancel) := Decided(s.owner, done, s.reader.Broken?);
    s.(owner := owner, app := if cancel then Cancel(s.app, ByOwner) else s.app)
  }

  function Decision(s: State, done: bool): State {
    match Decided(s.owner, done, s.reader.Broken?).1
    case AwaitWork => Settled(s, done).(run := AwaitingWork)
    case SendTimeout => Settled(s, done).(run := SendingTimeout(0))
    case _ => End(Settled(s, done))
  }

  /** The owner awaits work that is not done: its cancellation is passed on to the work, for which it goes on waiting. */
  predicate Awaits(s: State) {
    s.run == AwaitingWork && !s.app.finished
  }

  function CancelOwner(s: State): State {
    if Awaits(s) then s.(app := Cancel(s.app, ThroughAwait)) else End(s)
  }

  function Receive(s: State, arrived: Option<bool>): State {
    var (owner, outcome) := Received(s.owner, arrived);
    s.(owner := owner,
       app := if outcome.RaisedCancelled? then Cancel(s.app, ByBodyTimer).(receiving := false) else s.app.(receiving := false))
  }

  /** A message that is dropped is not in flight. */
  function SendFrom(s: State, m: Message): State {
    s.(owner := Sent(s.owner, m),
       app := s.app.(saidStart := true, saidFinal := m == AppBody(false), sending := if Sends(s.owner) then Some(m) else None))
  }

  function Checking(c: real, s: State, passed: Mutation): State {
    var (abandoned, error) := Asserted(s.owner.abandoned, c, s.clock);
    s.(owner := s.owner.(abandoned := abandoned, ownsMutation := s.owner.ownsMutation || error == None),
       mutation := if error == None then passed else if s.mutation == NoMutation then NoMutation else Refused)
  }

  /** One event; the activity expires at `c`. */
  function Next(c: real, s: State, e: Event): State
    requires Enabled(s, e)
  {
    match e
    case Tick(elapsed) => s.(clock := s.clock + elapsed as real)
    case ReadDisconnect => s.(owner := HeardDisconnect(s.owner), reader := Ended)
    case ReadError => s.(owner := Disconnect(s.owner), reader := Ended)
    case ReadFailure => s.(reader := Broken)
    case AskForBody => s.(app := s.app.(receiving := AskBody(s.owner) == ForBody))
    case BodyTimeout => Receive(s, None)
    case Body(more) => Receive(s, Some(more))
    case AppSend(m) => SendFrom(s, m)
    case AppSendDone => s.(owner := SendDone(s.owner, s.app.sending.value), app := s.app.(sending := None))
    case AppSendError => s.(owner := Disconnect(s.owner), app := s.app.(sending := None))
    case AppFinish => s.(app := s.app.(finished := true, sending := None))
    case Decide(done) => Decision(s, done)
    case SendTimeoutMessage =>
      s.(owner := TimeoutSent(s.owner, if s.run.count == 0 then TimeoutStart else TimeoutBody), run := SendingTimeout(s.run.count + 1))
    case SendTimeoutError => End(s)
    case WorkDone => End(s)
    case OwnerCancelled => CancelOwner(s)
    case DrainExpired => s.(app := Cancel(s.app, ByDrain))
    case BeginMutation => Checking(c, s, Running)
    case Check => Checking(c, s, Running)
    case LastCheck => Checking(c, s, Checked)
    case Commit => s.(mutation := Committed)
  }

  // ---------- the invariant

  /** A start, then bodies, nothing after a final one. */
  predicate AppWire(w: seq<Message>) {
    && (w != [] ==> w[0] == AppStart)
    && (forall i | 1 <= i < |w| :: w[i].AppBody?)
    && (forall i | 0 <= i < |w| - 1 :: w[i] != AppBody(false))
  }

  predicate Final(w: seq<Message>) {
    w != [] && w[|w| - 1] == AppBody(false)
  }

  predicate TimeoutWire(w: seq<Message>) {
    w == [TimeoutStart] || w == [TimeoutStart, TimeoutBody]
  }

  /** What has been handed to the server, as the application's and the owner's states tell it. */
  predicate WireOk(s: State) {
    if TimeoutWire(s.owner.wire) then
      s.owner.closed && !s.owner.started && s.owner.abandoned.Some? && !s.owner.completed
      && (s.run == Over || s.run == SendingTimeout(|s.owner.wire|))
    else
      && AppWire(s.owner.wire)
      && (s.owner.started <==> s.owner.wire != [])
      && (s.run.SendingTimeout? ==> s.run.count == 0 && s.owner.wire == [])
  }

  predicate AppOk(s: State) {
    && (s.owner.started ==> s.app.saidStart)
    && (Final(s.owner.wire) ==> s.app.saidFinal)
    && (s.app.saidFinal ==> s.app.saidStart)
    && (s.app.saidStart && !s.owner.started ==> s.owner.closed || s.owner.disconnected)
    && (s.owner.completed ==> Final(s.owner.wire))
    && (s.app.sending == Some(AppBody(false)) ==> Final(s.owner.wire))
  }

  predicate OwnerOk(s: State) {
    && (s.run.SendingTimeout? ==> s.owner.closed && !s.owner.started && s.owner.abandoned.Some? && !s.owner.completed && s.run.count <= 2)
    && (s.run == Over ==> s.owner.closed)
    && (s.owner.disconnected ==> s.owner.abandoned.Some?)
    && (s.owner.timeoutDetail.Some? ==> s.owner.abandoned.Some?)
    && (s.owner.interrupted ==> s.owner.disconnected || s.owner.timeoutDetail.Some?)
    && (s.reader.Ended? ==> s.owner.disconnected || s.owner.completed)
    && (s.run == AwaitingWork ==> s.owner.completed || s.app.finished)
    && (ThroughAwait in s.app.cancels ==> s.owner.completed)
  }

  predicate MutationOk(s: State) {
    && (s.mutation == NoMutation <==> !s.owner.ownsMutation)
    && (ByOwner in s.app.cancels ==> s.owner.abandoned.Some? && !s.owner.ownsMutation)
  }

  predicate Inv(s: State) {
    WireOk(s) && AppOk(s) && OwnerOk(s) && MutationOk(s)
  }

  lemma SendKeeps(s: State, m: Message)
    requires Inv(s) && Enabled(s, AppSend(m))
    ensures Inv(SendFrom(s, m))
  {
    var w, w' := s.owner.wire, SendFrom(s, m).owner.wire;
    if Sends(s.owner) {
      assert w' == w + [m];
      assert !TimeoutWire(w);
      assert w'[0] == AppStart;
      assert !Final(w);
    }
  }

  lemma TimeoutMessageKeeps(c: real, s: State)
    requires Inv(s) && Enabled(s, SendTimeoutMessage)
    ensures Inv(Next(c, s, SendTimeoutMessage))
  {
  }

  /** Events that only mark the request as gone, late or over leave what was handed over as it was. */
  predicate Quiet(e: Event) {
    || e.Tick? || e.ReadDisconnect? || e.ReadError? || e.ReadFailure? || e.AskForBody? || e.BodyTimeout? || e.Body?
    || e.AppFinish? || e.DrainExpired?
  }

  lemma QuietKeeps(c: real, s: State, e: Event)
    requires Inv(s) && Enabled(s, e) && Quiet(e)
    ensures Inv(Next(c, s, e))
  {
    match e
    case ReadDisconnect =>
    case ReadError =>
    case BodyTimeout =>
    case _ =>
  }

  lemma EndKeeps(s: State)
    requires Inv(s)
    ensures Inv(End(s))
  {
  }

  lemma SettledKeeps(s: State, done: bool)
    requires Inv(s) && s.run == Waiting
    ensures Inv(Settled(s, done))
  {
  }

  lemma DecisionKeeps(s: State, done: bool)
    requires Inv(s) && Enabled(s, Decide(done))
    ensures Inv(Decision(s, done))
  {
    SettledKeeps(s, done);
    var t := Settled(s, done);
    match Decided(s.owner, done, s.reader.Broken?).1
    case AwaitWork =>
    case SendTimeout =>
      assert !t.owner.started && t.owner.closed;
    case _ => EndKeeps(t);
  }

  lemma MutationKeeps(c: real, s: State, e: Event)
    requires Inv(s) && Enabled(s, e) && (e.BeginMutation? || e.Check? || e.LastCheck? || e.Commit?)
    ensures Inv(Next(c, s, e))
  {
  }

  lemma StepKeeps(c: real, s: State, e: Event)
    requires Inv(s) && Enabled(s, e)
    ensures Inv(Next(c, s, e))
  {
    match e
    case AppSend(m) => SendKeeps(s, m);
    case SendTimeoutMessage => TimeoutMessageKeeps(c, s);
    case Decide(done) => DecisionKeeps(s, done);
    case SendTimeoutError => EndKeeps(s);
    case WorkDone => EndKeeps(s);
    case OwnerCancelled =>
      if !Awaits(s) {
        EndKeeps(s);
      }
    case AppSendDone =>
    case AppSendError =>
    case _ =>
      if Quiet(e) {
        QuietKeeps(c, s, e);
      } else {
        MutationKeeps(c, s, e);
      }
  }

  // ---------- whole runs

  predicate Runs(c: real, s: State, es: seq<Event>)
    decreases |es|
  {
    es == [] || (Enabled(s, es[0]) && Runs(c, Next(c, s, es[0]), es[1..]))
  }

  function After(c: real, s: State, es: seq<Event>): State
    requires Runs(c, s, es)
    decreases |es|
  {
    if es == [] then s else After(c, Next(c, s, es[0]), es[1..])
  }

  lemma {:induction false} RunKeeps(c: real, s: State, es: seq<Event>)
    requires Inv(s) && Runs(c, s, es)
    ensures Inv(After(c, s, es))
    decreases |es|
  {
    if es != [] {
      StepKeeps(c, s, es[0]);
      RunKeeps(c, Next(c, s, es[0]), es[1..]);
    }
  }

  predicate IsStart(m: Message) {
    m == AppStart || m == TimeoutStart
  }

  predicate IsFinal(m: Message) {
    m == AppBody(false) || m == TimeoutBody
  }

  predicate FromOwner(m: Message) {
    m == TimeoutStart || m == TimeoutBody
  }

  /** In every run at most one response starts, it starts first, nothing follows a final body, and the two responses never mix. */
  lemma OneResponse(c: real, es: seq<Event>)
    requires Runs(c, INIT, es)
    ensures var w := After(c, INIT, es).owner.wire;
      && (forall i | 0 <= i < |w| :: IsStart(w[i]) <==> i == 0)
      && (forall i | 0 <= i < |w| - 1 :: !IsFinal(w[i]))
      && (forall i, j | 0 <= i < |w| && 0 <= j < |w| :: FromOwner(w[i]) <==> FromOwner(w[j]))
  {
    RunKeeps(c, INIT, es);
  }

  /** A 408 goes out only for an abandoned request whose application had started nothing, and from then on the application sends nothing. */
  lemma TimeoutOnlyBeforeStart(c: real, es: seq<Event>)
    requires Runs(c, INIT, es) && TimeoutStart in After(c, INIT, es).owner.wire
    ensures var o := After(c, INIT, es).owner;
      !o.started && o.abandoned.Some? && !Sends(o) && AppStart !in o.wire
  {
    RunKeeps(c, INIT, es);
  }

  // ---------- every request gets its answer

  /** The total deadline can pass at any time while the owner waits, the work is going on and the reader reads; what is done ends the wait. */
  lemma WaitEnds(s: State)
    ensures Enabled(s, Decide(false)) <==> s.run == Waiting && !s.app.finished && s.reader == Reading
    ensures Enabled(s, Decide(true)) <==>
      s.run == Waiting && (s.app.finished || s.reader != Reading || s.owner.interrupted || s.owner.completed)
    ensures Enabled(s, OwnerCancelled) <==> s.run != Over
    ensures Enabled(s, BodyTimeout) <==> s.app.receiving && !s.app.finished
  {
  }

  /** Neither complete nor disconnected, nothing started, and too late. */
  predicate Unanswered(s: State, done: bool) {
    var o := s.owner;
    !o.completed && !o.disconnected && !o.started && (o.timeoutDetail.Some? || !done)
  }

  /**
   A request that is too late, and whose application has started nothing, is answered: the owner closes
   the channel to the application and goes on to send a 408. If nothing had abandoned the request before,
   the total deadline does.
   */
  lemma LateRequestAnswered(c: real, es: seq<Event>, done: bool)
    requires Runs(c, INIT, es) && Enabled(After(c, INIT, es), Decide(done)) && Unanswered(After(c, INIT, es), done)
    ensures var s := After(c, INIT, es);
      var t := Next(c, s, Decide(done));
      && t.run == SendingTimeout(0) && t.owner.closed && t.owner.wire == []
      && t.owner.abandoned == if s.owner.abandoned.Some? then s.owner.abandoned else Some("Application response deadline exceeded.")
  {
    RunKeeps(c, INIT, es);
  }

  /** The 408 is a complete response. */
  lemma TimeoutResponseSent(c: real, t: State)
    requires t.run == SendingTimeout(0) && t.owner.wire == []
    ensures Enabled(t, SendTimeoutMessage)
    ensures var u := Next(c, t, SendTimeoutMessage);
      Enabled(u, SendTimeoutMessage) && Next(c, u, SendTimeoutMessage).owner.wire == [TimeoutStart, TimeoutBody]
  {
    assert [] + [TimeoutStart] + [TimeoutBody] == [TimeoutStart, TimeoutBody];
  }

  /** Work that owns no mutation and is not done is cancelled when its request is over before its response. */
  lemma UnownedWorkCancelled(c: real, s: State, e: Event)
    requires Enabled(s, e) && !s.owner.ownsMutation && !s.app.finished && !s.owner.completed
    requires match e
      case Decide(done) => s.owner.disconnected || s.owner.timeoutDetail.Some? || !done
      case OwnerCancelled => s.run == Waiting && !Cancelling(s.app)
      case _ => false
    ensures ByOwner in Next(c, s, e).app.cancels
  {
  }

  /** A body that stalls abandons the request with the reason of its timer, unless it was abandoned already. */
  lemma StalledBodyAbandons(c: real, s: State)
    requires Enabled(s, BodyTimeout)
    ensures var detail := if s.owner.bodyStarted then "Request chunk timeout exceeded." else "Request first body timeout exceeded.";
      var o := Next(c, s, BodyTimeout).owner;
      && o.timeoutDetail == Some(detail) && o.interrupted
      && o.abandoned == (if s.owner.abandoned.Some? then s.owner.abandoned else Some(detail))
  {
  }

  /** The other decisions: a complete response is left to finish, a lost or started one is aborted with nothing more sent, an error of the reader ends the request. */
  lemma OtherDecisions(c: real, s: State, done: bool)
    requires Enabled(s, Decide(done))
    ensures var s' := Next(c, s, Decide(done));
      var late := s.owner.timeoutDetail.Some? || !done;
      && (s.owner.completed ==> s' == s.(run := AwaitingWork))
      && (!s.owner.completed && s.owner.disconnected ==> s'.run == Over && s'.owner.closed && s'.owner.wire == s.owner.wire)
      && (!s.owner.completed && !s.owner.disconnected && late && s.owner.started ==>
            s'.run == Over && s'.owner.closed && s'.owner.wire == s.owner.wire && s'.owner.abandoned.Some?)
      && (!s.owner.completed && !s.owner.disconnected && !late ==>
            if s.reader.Broken? then s'.run == Over && s'.owner.wire == s.owner.wire else s' == s.(run := AwaitingWork))
  {
  }

  /** A message of the application goes out exactly while the channel is open, connected and incomplete. */
  lemma MessagesGoOut(c: real, s: State, m: Message)
    requires Enabled(s, AppSend(m))
    ensures var s' := Next(c, s, AppSend(m));
      if !s.owner.closed && !s.owner.disconnected && !s.owner.completed
      then s'.owner.wire == s.owner.wire + [m] && s'.app.sending == Some(m) && (m == AppStart ==> s'.owner.started)
      else s'.owner == s.owner && s'.app.sending == None
  {
  }

  /** A mutation of an active request in time passes its checks and may commit. */
  lemma ActiveMutationCommits(c: real, s: State)
    requires s.owner.abandoned == None && s.clock < c && !s.app.finished && s.mutation == NoMutation
    ensures Enabled(s, BeginMutation)
    ensures var t := Next(c, s, BeginMutation);
      && t.owner.ownsMutation && t.mutation == Running && Next(c, t, Check) == t
      && Next(c, t, LastCheck).mutation == Checked && Next(c, Next(c, t, LastCheck), Commit).mutation == Committed
  {
  }

  lemma DecisionReason(s: State, done: bool)
    requires s.owner.abandoned.Some?
    ensures Decision(s, done).owner.abandoned == s.owner.abandoned
  {
    assert Settled(s, done).owner.abandoned == s.owner.abandoned;
  }

  lemma ReasonStep(c: real, s: State, e: Event)
    requires Enabled(s, e) && s.owner.abandoned.Some?
    ensures Next(c, s, e).owner.abandoned == s.owner.abandoned
  {
    match e
    case Decide(done) => DecisionReason(s, done);
    case BodyTimeout =>
    case AppSend(m) =>
    case _ =>
  }

  /** The first reason for abandoning a request stays. */
  lemma {:induction false} AbandonmentIsPermanent(c: real, s: State, es: seq<Event>)
    requires Runs(c, s, es) && s.owner.abandoned.Some?
    ensures After(c, s, es).owner.abandoned == s.owner.abandoned
    decreases |es|
  {
    if es != [] {
      ReasonStep(c, s, es[0]);
      AbandonmentIsPermanent(c, Next(c, s, es[0]), es[1..]);
    }
  }

  // ---------- commits

  predicate MayCommit(m: Mutation) {
    m.Checked? || m.Committed?
  }

  /** The request is abandoned, or its deadline has come. */
  predicate Late(c: real, s: State) {
    s.owner.abandoned.Some? || s.clock >= c
  }

  lemma ClockStep(c: real, s: State, e: Event)
    requires Enabled(s, e)
    ensures Next(c, s, e).clock >= s.clock
  {
  }

  lemma MutationStep(c: real, s: State, e: Event)
    requires Enabled(s, e) && Late(c, s) && !MayCommit(s.mutation)
    ensures !MayCommit(Next(c, s, e).mutation)
  {
  }

  lemma LateStep(c: real, s: State, e: Event)
    requires Enabled(s, e) && Late(c, s)
    ensures Late(c, Next(c, s, e))
  {
    ClockStep(c, s, e);
    if s.owner.abandoned.Some? {
      ReasonStep(c, s, e);
    }
  }

  /** A mutation whose request is abandoned, or whose deadline has come, before its last check never begins to commit. */
  lemma {:induction false} LateNeverCommits(c: real, s: State, es: seq<Event>)
    requires Runs(c, s, es) && Late(c, s) && !MayCommit(s.mutation)
    ensures !MayCommit(After(c, s, es).mutation)
    decreases |es|
  {
    if es != [] {
      LateStep(c, s, es[0]);
      MutationStep(c, s, es[0]);
      LateNeverCommits(c, Next(c, s, es[0]), es[1..]);
    }
  }

  // ---------- who cancels the work

  /** The event cancels work from outside the owner's decisions. */
  predicate CancelsWork(s: State, e: Event) {
    e == BodyTimeout || (e == OwnerCancelled && Awaits(s)) || e == DrainExpired
  }

  predicate CancelledInRun(c: real, s: State, es: seq<Event>)
    requires Runs(c, s, es)
    decreases |es|
  {
    es != [] && (CancelsWork(s, es[0]) || CancelledInRun(c, Next(c, s, es[0]), es[1..]))
  }

  /** Cancelled by anyone but the owner. */
  predicate CancelledElsewhere(a: App) {
    ByBodyTimer in a.cancels || ThroughAwait in a.cancels || ByDrain in a.cancels
  }

  lemma DecisionCancels(s: State, done: bool)
    ensures s.app.cancels <= Decision(s, done).app.cancels <= s.app.cancels + {ByOwner}
  {
    assert s.app.cancels <= Settled(s, done).app.cancels <= s.app.cancels + {ByOwner};
  }

  lemma CancelStep(c: real, s: State, e: Event)
    requires Enabled(s, e)
    ensures s.app.cancels <= Next(c, s, e).app.cancels
    ensures CancelledElsewhere(Next(c, s, e).app) <==> CancelledElsewhere(s.app) || CancelsWork(s, e)
  {
    match e
    case Decide(done) => DecisionCancels(s, done);
    case OwnerCancelled =>
    case _ =>
  }

  lemma {:induction false} CancelsTraced(c: real, s: State, es: seq<Event>)
    requires Runs(c, s, es)
    ensures s.app.cancels <= After(c, s, es).app.cancels
    ensures CancelledElsewhere(After(c, s, es).app) <==> CancelledElsewhere(s.app) || CancelledInRun(c, s, es)
    decreases |es|
  {
    if es != [] {
      CancelStep(c, s, es[0]);
      CancelsTraced(c, Next(c, s, es[0]), es[1..]);
    }
  }

  /**
   In every run, work that owns a mutation has been cancelled if and only if a body read of its own timed
   out, the owner was cancelled while it awaited the work, or the drain at shutdown ran out of time.
   */
  lemma OwnedWorkCancelledExactly(c: real, es: seq<Event>)
    requires Runs(c, INIT, es) && After(c, INIT, es).owner.ownsMutation
    ensures After(c, INIT, es).app.cancels != {} <==> CancelledInRun(c, INIT, es)
  {
    RunKeeps(c, INIT, es);
    CancelsTraced(c, INIT, es);
    var cancels := After(c, INIT, es).app.cancels;
    if who :| who in cancels {
      assert who != ByOwner;
      assert who.ByBodyTimer? || who.ThroughAwait? || who.ByDrain?;
    }
  }

  /** Work that its owner cancels owns no mutation, and never comes to own one. */
  lemma CancelledWorkNeverOwns(c: real, es: seq<Event>, more: seq<Event>)
    requires Runs(c, INIT, es) && ByOwner in After(c, INIT, es).app.cancels
    requires Runs(c, After(c, INIT, es), more)
    ensures var s' := After(c, After(c, INIT, es), more); !s'.owner.ownsMutation && s'.mutation == NoMutation
  {
    RunKeeps(c, INIT, es);
    RunKeeps(c, After(c, INIT, es), more);
    CancelsTraced(c, After(c, INIT, es), more);
  }

  /** The owner's own cancellation reaches unfinished work only once the response is complete. */
  lemma PassedOnAfterTheResponse(c: real, es: seq<Event>)
    requires Runs(c, INIT, es) && ThroughAwait in After(c, INIT, es).app.cancels
    ensures var o := After(c, INIT, es).owner; o.completed && Final(o.wire)
  {
    RunKeeps(c, INIT, es);
  }

  lemma Unroll(c: real, s: State, e: Event, es: seq<Event>)
    requires Enabled(s, e) && Runs(c, Next(c, s, e), es)
    ensures Runs(c, s, [e] + es) && After(c, s, [e] + es) == After(c, Next(c, s, e), es)
  {
    assert ([e] + es)[1..] == es;
  }

  /** Owning a mutation does not protect work from all cancellation: a body that stalls raises CancelledError in it. */
  lemma StalledBodyCancelsOwnedWork(c: real) returns (es: seq<Event>)
    requires c > 0.0
    ensures Runs(c, INIT, es)
    ensures var s := After(c, INIT, es); s.owner.ownsMutation && s.app.cancels == {ByBodyTimer}
  {
    var s1 := Next(c, INIT, BeginMutation);
    var s2 := Next(c, s1, AskForBody);
    var s3 := Next(c, s2, BodyTimeout);
    assert Runs(c, s3, []);
    Unroll(c, s2, BodyTimeout, []);
    Unroll(c, s1, AskForBody, [BodyTimeout] + []);
    Unroll(c, INIT, BeginMutation, [AskForBody] + ([BodyTimeout] + []));
    es := [BeginMutation] + ([AskForBody] + ([BodyTimeout] + []));
  }
}
