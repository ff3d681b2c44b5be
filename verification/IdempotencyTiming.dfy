/** Completing a claim: what is stored, when it expires by the clock, and what that means for later effects. */
module IdempotencyTiming {
  import opened Options
  import opened Idempotency
  import opened IdempotencyInvariant
  import IdempotencySteps
  import opened IdempotencyTheorems

  /**
   `complete` accepts exactly the successful responses within the configured bound that are bodyless or
   JSON as their status asks. It then stores the response under the attempt's fingerprint, completed at
   the reading of the database clock and expiring a day later; otherwise nothing is written.
   */
  lemma CompletionDecides(cfg: Config, events: seq<Event>, s: State, a: AttemptId)
    requires ValidConfig(cfg) && Leads(cfg, INIT, events, s) && Enabled(cfg, s, Client(a, Complete))
    ensures var t := s.attempts[a];
      var r := t.response.value;
      var s' := Next(cfg, s, Client(a, Complete));
      var t' := s'.attempts[a];
      && t.claimed
      && (t'.phase.Ready? <==>
            && 200 <= r.status < 300 && |r.body| <= cfg.maxBytes
            && (if r.status == 204 || r.status == 205 then r.body == [] else cfg.isJson(r.body)))
      && (t'.phase.Ready? ==> s'.sessions[t.session].writes == Writes(Some(t.scope), map[t.scope := Some(Record(
            t.fingerprint, Completed, Some(r.status), Some(r.body), Some(s.db.clock), Some(s.db.clock + 86_400_000)))]))
      && (!t'.phase.Ready? ==>
            t'.phase.Failing? && t'.cause == Some(InvalidResponse) && s'.sessions[t.session] == s.sessions[t.session])
  {
    PreparedClaim(cfg, events, s, a);
    CompleteStores(cfg, s.db, s.attempts[a], s.sessions[s.attempts[a].session]);
  }

  /** A prepared attempt has its processing claim as the only row. */
  lemma PreparedClaim(cfg: Config, events: seq<Event>, s: State, a: AttemptId)
    requires ValidConfig(cfg) && Leads(cfg, INIT, events, s) && Enabled(cfg, s, Client(a, Complete))
    ensures var t := s.attempts[a];
      && t.claimed && t.response.Some?
      && s.sessions[t.session].writes.mutation == Some(t.scope)
      && OnlyRow(s.sessions[t.session].writes, t.scope, NewClaim(t.fingerprint))
  {
    Reached(cfg, events, s);
    assert AttemptOk(cfg, s, a);
  }

  lemma CompleteStores(cfg: Config, db: Database, t: Attempt, y: Session)
    requires CanAct(t, y, Complete) && y.writes.mutation == Some(t.scope) && OnlyRow(y.writes, t.scope, NewClaim(t.fingerprint))
    ensures var r := t.response.value;
      var (t', y') := Act(cfg, db, t, y, Complete);
      && (t'.phase.Ready? <==>
            && 200 <= r.status < 300 && |r.body| <= cfg.maxBytes
            && (if r.status == 204 || r.status == 205 then r.body == [] else cfg.isJson(r.body)))
      && (t'.phase.Ready? ==> y'.writes == Writes(Some(t.scope), map[t.scope := Some(Record(
            t.fingerprint, Completed, Some(r.status), Some(r.body), Some(db.clock), Some(db.clock + 86_400_000)))]))
      && (!t'.phase.Ready? ==> t'.phase.Failing? && t'.cause == Some(InvalidResponse) && y' == y)
  {
    assert Visible(db.table, y.writes, t.scope) == Some(NewClaim(t.fingerprint));
    assert y.writes.rows == map[t.scope := Some(NewClaim(t.fingerprint))];
  }

  /** A response of 400 or more is rolled back: nothing of the attempt is left to commit, and it did not fail. */
  lemma ErrorResponsesRollBack(cfg: Config, events: seq<Event>, s: State, a: AttemptId)
    requires ValidConfig(cfg) && Leads(cfg, INIT, events, s)
    requires a in s.attempts && s.attempts[a].session in s.sessions
    requires s.attempts[a].phase.Prepared? && Online(s.sessions[s.attempts[a].session]) && !s.attempts[a].abandoned
    ensures s.attempts[a].response.Some?
    ensures Enabled(cfg, s, Client(a, Complete)) <==> s.attempts[a].response.value.status < 400
    ensures s.attempts[a].response.value.status >= 400 ==>
      && Enabled(cfg, s, Client(a, RejectResponse))
      && var s' := Next(cfg, s, Client(a, RejectResponse));
         && s'.sessions[s.attempts[a].session].writes == NOTHING
         && s'.attempts[a].phase.Settled? && s'.attempts[a].cause == None && !s'.attempts[a].inTxn
  {
    Reached(cfg, events, s);
    assert AttemptOk(cfg, s, a);
  }

  /** Every response bound up to the replay's own bound of 65,536 bytes is covered. */
  lemma BoundsCovered(cfg: Config)
    ensures 1 <= cfg.maxBytes <= 65536 ==> ValidConfig(cfg)
  {
  }

  // ---------- from completion to commit

  lemma {:induction false} LeadsAppend(cfg: Config, s: State, first: seq<Event>, m: State, second: seq<Event>, s': State)
    requires Leads(cfg, s, first, m) && Leads(cfg, m, second, s')
    ensures Leads(cfg, s, first + second, s')
    decreases |first|
  {
    if first == [] {
      assert first + second == second;
    } else {
      assert (first + second)[1..] == first[1..] + second;
      LeadsAppend(cfg, Next(cfg, s, first[0]), first[1..], m, second, s');
    }
  }

  lemma OneEvent(cfg: Config, s: State, e: Event)
    requires Enabled(cfg, s, e)
    ensures Leads(cfg, s, [e], Next(cfg, s, e))
  {
    assert Leads(cfg, Next(cfg, s, e), [], Next(cfg, s, e));
  }

  /** The history is only ever extended. */
  lemma {:induction false} HistoryGrows(cfg: Config, s: State, events: seq<Event>, s': State)
    requires Leads(cfg, s, events, s')
    ensures |s.db.history| <= |s'.db.history| && s'.db.history[..|s.db.history|] == s.db.history
    decreases |events|
  {
    if events == [] {
      assert s.db.history[..|s.db.history|] == s.db.history;
    } else {
      var m := Next(cfg, s, events[0]);
      HistoryStep(cfg, s, events[0]);
      HistoryGrows(cfg, m, events[1..], s');
      assert s'.db.history[..|s.db.history|] == s'.db.history[..|m.db.history|][..|s.db.history|];
    }
  }

  lemma HistoryStep(cfg: Config, s: State, e: Event)
    requires Enabled(cfg, s, e)
    ensures var h' := Next(cfg, s, e).db.history; |s.db.history| <= |h'| && h'[..|s.db.history|] == s.db.history
  {
    WorldStep(cfg, s, e);
    assert s.db.history[..|s.db.history|] == s.db.history;
  }

  /** The event ends the transaction of attempt `a` on session `x`. */
  predicate EndsTransaction(e: Event, a: AttemptId, x: SessionId) {
    (e.Server? && e.x == x && (e.serves.DoCommit? || e.serves.Die?)) || e == Client(a, Rollback)
  }

  /** The session still carries the completed work of the attempt. */
  ghost predicate Carries(s: State, a: AttemptId, x: SessionId, w: Writes) {
    && a in s.attempts && s.attempts[a].session == x
    && PastCompletion(s.attempts[a].phase)
    && x in s.sessions && s.sessions[x].alive && s.sessions[x].writes == w
    && (s.sessions[x].lease == Some(a) || s.sessions[x].lease == None)
  }

  predicate PastCompletion(p: Phase) {
    p in {Ready, Checked, AwaitCommit, Failing, Settled, AwaitRelease, Done}
  }

  /** A step of the attempt after completion, other than a rollback, leaves its session's writes alone. */
  lemma OwnStep(cfg: Config, db: Database, t: Attempt, y: Session, step: ClientStep)
    requires CanAct(t, y, step) && PastCompletion(t.phase) && !step.Rollback?
    ensures var (t', y') := Act(cfg, db, t, y, step);
      && PastCompletion(t'.phase) && t'.session == t.session
      && y'.writes == y.writes && y'.alive == y.alive && (y'.lease == y.lease || y'.lease == None)
  {
    match step
    case Release =>
    case ReceiveRelease =>
    case ReceiveCommit =>
    case _ =>
  }

  /** Another attempt that can still act uses another session. */
  lemma OthersElsewhere(cfg: Config, s: State, b: AttemptId, step: ClientStep, a: AttemptId, x: SessionId, w: Writes)
    requires Inv(cfg, s) && Enabled(cfg, s, Client(b, step)) && Carries(s, a, x, w) && b != a && !step.Abandon?
    ensures s.attempts[b].session != x
  {
    assert AttemptOk(cfg, s, b);
  }

  lemma CarriesClient(cfg: Config, s: State, b: AttemptId, step: ClientStep, a: AttemptId, x: SessionId, w: Writes)
    requires Inv(cfg, s) && Enabled(cfg, s, Client(b, step)) && Carries(s, a, x, w) && !(b == a && step.Rollback?)
    ensures Carries(Next(cfg, s, Client(b, step)), a, x, w)
  {
    if b == a {
      OwnStep(cfg, s.db, s.attempts[b], s.sessions[x], step);
    } else if !step.Abandon? {
      OthersElsewhere(cfg, s, b, step, a, x, w);
    }
  }

  lemma CarriesStep(cfg: Config, s: State, e: Event, a: AttemptId, x: SessionId, w: Writes)
    requires Inv(cfg, s) && Enabled(cfg, s, e) && w != NOTHING && Carries(s, a, x, w) && !EndsTransaction(e, a, x)
    ensures Carries(Next(cfg, s, e), a, x, w)
  {
    assert x in s.pool ==> Idle(s.db, x, s.sessions[x]);
    match e
    case Client(b, step) => CarriesClient(cfg, s, b, step, a, x, w);
    case _ =>
  }

  lemma {:induction false} CarriesRun(cfg: Config, s: State, events: seq<Event>, s': State, a: AttemptId, x: SessionId, w: Writes)
    requires ValidConfig(cfg) && Inv(cfg, s) && Leads(cfg, s, events, s') && w != NOTHING && Carries(s, a, x, w)
    requires forall i | 0 <= i < |events| :: !EndsTransaction(events[i], a, x)
    ensures Carries(s', a, x, w)
    decreases |events|
  {
    if events != [] {
      CarriesStep(cfg, s, events[0], a, x, w);
      IdempotencySteps.StepKeeps(cfg, s, events[0]);
      CarriesRun(cfg, Next(cfg, s, events[0]), events[1..], s', a, x, w);
    }
  }

  /**
   Attempt `a` completes its claim, its transaction goes on and COMMIT runs: what commits is what was
   completed, with the clock reading of that moment.
   */
  lemma CommitsAsCompleted(cfg: Config, before: seq<Event>, s: State, a: AttemptId, during: seq<Event>, m: State)
    requires ValidConfig(cfg) && Leads(cfg, INIT, before, s) && Enabled(cfg, s, Client(a, Complete))
    requires var s' := Next(cfg, s, Client(a, Complete)); s'.attempts[a].phase.Ready? && Leads(cfg, s', during, m)
    requires var x := s.attempts[a].session;
      && (forall i | 0 <= i < |during| :: !EndsTransaction(during[i], a, x))
      && Enabled(cfg, m, Server(x, DoCommit(true)))
    ensures var t := s.attempts[a];
      var r := Record(t.fingerprint, Completed, Some(t.response.value.status), Some(t.response.value.body),
                      Some(s.db.clock), Some(s.db.clock + 86_400_000));
      Next(cfg, m, Server(t.session, DoCommit(true))).db.history
        == m.db.history + [Committed(m.db.clock, Writes(Some(t.scope), map[t.scope := Some(r)]))]
  {
    var x := s.attempts[a].session;
    var s' := Next(cfg, s, Client(a, Complete));
    CompletionDecides(cfg, before, s, a);
    Reached(cfg, before, s);
    assert AttemptOk(cfg, s, a);
    IdempotencySteps.StepKeeps(cfg, s, Client(a, Complete));
    CarriesRun(cfg, s', during, m, a, x, s'.sessions[x].writes);
  }

  /** The run in which this happens, up to the commit. */
  lemma CommitRun(cfg: Config, before: seq<Event>, s: State, a: AttemptId, during: seq<Event>, m: State) returns (events: seq<Event>)
    requires Leads(cfg, INIT, before, s) && Enabled(cfg, s, Client(a, Complete))
    requires Leads(cfg, Next(cfg, s, Client(a, Complete)), during, m)
    requires Enabled(cfg, m, Server(s.attempts[a].session, DoCommit(true)))
    ensures Leads(cfg, INIT, events, Next(cfg, m, Server(s.attempts[a].session, DoCommit(true))))
  {
    var e, f := Client(a, Complete), Server(s.attempts[a].session, DoCommit(true));
    OneEvent(cfg, s, e);
    LeadsAppend(cfg, INIT, before, s, [e], Next(cfg, s, e));
    LeadsAppend(cfg, INIT, before + [e], Next(cfg, s, e), during, m);
    OneEvent(cfg, m, f);
    LeadsAppend(cfg, INIT, before + [e] + during, m, [f], Next(cfg, m, f));
    events := before + [e] + during + [f];
  }

  /**
   If an attempt completes its claim when the database clock reads T and this work commits, then every
   later commit of work for the scope, in every continuation, is at T plus a day or later.
   */
  lemma EffectsAreSpacedOnTheClock(cfg: Config, before: seq<Event>, s: State, a: AttemptId, during: seq<Event>, m: State,
                                   rest: seq<Event>, end: State, j: nat)
    requires ValidConfig(cfg) && Leads(cfg, INIT, before, s) && Enabled(cfg, s, Client(a, Complete))
    requires var s' := Next(cfg, s, Client(a, Complete)); s'.attempts[a].phase.Ready? && Leads(cfg, s', during, m)
    requires var x := s.attempts[a].session;
      && (forall i | 0 <= i < |during| :: !EndsTransaction(during[i], a, x))
      && Enabled(cfg, m, Server(x, DoCommit(true)))
      && Leads(cfg, Next(cfg, m, Server(x, DoCommit(true))), rest, end)
    requires |m.db.history| < j < |end.db.history| && end.db.history[j].writes.mutation == Some(s.attempts[a].scope)
    ensures end.db.history[j].at >= s.db.clock + 86_400_000
  {
    var c := Next(cfg, m, Server(s.attempts[a].session, DoCommit(true)));
    var n := |m.db.history|;
    CommitsAsCompleted(cfg, before, s, a, during, m);
    var events := CommitRun(cfg, before, s, a, during, m);
    LeadsAppend(cfg, INIT, events, c, rest, end);
    HistoryGrows(cfg, c, rest, end);
    assert end.db.history[n] == end.db.history[..|c.db.history|][n] == c.db.history[n];
    EffectsAreSpaced(cfg, events + rest, end, n, j, s.attempts[a].scope);
  }

  // ---------- answers

  /** An attempt that leaves the route without an exception answers with its response, if that is no error; one that does not, answers nothing. */
  lemma AnswerLeaves(cfg: Config, s: State, a: AttemptId, step: ClientStep)
    requires Enabled(cfg, s, Client(a, step))
    ensures var t := s.attempts[a];
      var s' := Next(cfg, s, Client(a, step));
      var t' := s'.attempts[a];
      s'.answers == s.answers +
        (if t'.delivered && !t.delivered && t'.response.Some? && t'.response.value.status < 400
         then [Answer(t'.scope, t'.fingerprint, t'.response.value, t'.version)] else [])
  {
  }

  /** A handler that returns leaves its response to be completed; one that raises makes the attempt fail. Either way only the business work is added. */
  lemma HandlerReturns(cfg: Config, db: Database, t: Attempt, y: Session, outcome: Option<Response>)
    requires CanAct(t, y, Handle(outcome))
    ensures var (t', y') := Act(cfg, db, t, y, Handle(outcome));
      && t'.response == outcome && (t'.phase == Prepared <==> outcome.Some?)
      && (outcome == None ==> t'.phase == Failing && t'.cause == Some(HandlerRaised))
      && y'.writes.rows == y.writes.rows && y'.writes.mutation == Some(t.scope)
  {
  }
}
