/** What every interleaving of attempts, purges, failures and lost acknowledgements guarantees. */
module IdempotencyTheorems {
  import opened Options
  import opened Idempotency
  import opened IdempotencyInvariant
  import IdempotencySteps

  lemma {:induction false} RunKeeps(cfg: Config, s: State, events: seq<Event>, s': State)
    requires ValidConfig(cfg)
    requires Inv(cfg, s) && Leads(cfg, s, events, s')
    ensures Inv(cfg, s')
    decreases |events|
  {
    if events != [] {
      IdempotencySteps.StepKeeps(cfg, s, events[0]);
      RunKeeps(cfg, Next(cfg, s, events[0]), events[1..], s');
    }
  }

  /** Every state that some interleaving reaches satisfies the invariant. */
  lemma Reached(cfg: Config, events: seq<Event>, s: State)
    requires ValidConfig(cfg) && Leads(cfg, INIT, events, s)
    ensures Inv(cfg, s)
  {
    RunKeeps(cfg, INIT, events, s);
  }

  // ---------- one effect per lifetime

  /** A handler's work commits if and only if exactly one completed claim of its scope commits with it. */
  lemma EffectsCommitWithTheirClaim(cfg: Config, events: seq<Event>, s: State, i: nat)
    requires ValidConfig(cfg) && Leads(cfg, INIT, events, s)
    requires i < |s.db.history|
    ensures var w := s.db.history[i].writes;
      && (w.mutation.None? <==> w.rows == map[])
      && (w.mutation.Some? ==>
            && w.rows.Keys == {w.mutation.value} && w.rows[w.mutation.value].Some?
            && var r := w.rows[w.mutation.value].value;
            && r.state.Completed? && r.status.Some? && r.body.Some? && r.completedAt.Some?
            && Storable(cfg, Response(r.status.value, r.body.value), cfg.maxBytes)
            && r.expiresAt == Some(r.completedAt.value + RETENTION_MS))
  {
    Reached(cfg, events, s);
    assert CommitReady(cfg, s.db.history[i].writes);
  }

  /** Two commits for one scope are apart by the whole lifetime of the first one's result. */
  lemma EffectsAreSpaced(cfg: Config, events: seq<Event>, s: State, i: nat, j: nat, c: Scope)
    requires ValidConfig(cfg) && Leads(cfg, INIT, events, s)
    requires i < j < |s.db.history|
    requires s.db.history[i].writes.mutation == Some(c) && s.db.history[j].writes.mutation == Some(c)
    ensures c in s.db.history[i].writes.rows && s.db.history[i].writes.rows[c].Some?
    ensures var r := s.db.history[i].writes.rows[c].value;
      r.completedAt.Some? && r.completedAt.value + RETENTION_MS <= s.db.history[j].at
  {
    Reached(cfg, events, s);
    assert CommitReady(cfg, s.db.history[i].writes);
    assert Spaced(s.db.history[i], s.db.history[j]);
  }

  /** Only COMMIT adds to the history; only COMMIT and a purge touch the table; only time moves the clock. */
  lemma WorldStep(cfg: Config, s: State, e: Event)
    requires Enabled(cfg, s, e)
    ensures var s' := Next(cfg, s, e);
      && s.db.clock <= s'.db.clock && (!e.Tick? ==> s'.db.clock == s.db.clock)
      && (!(e.Server? && e.serves.DoCommit?) ==> s'.db.history == s.db.history && (!e.Purge? ==> s'.db.table == s.db.table))
  {
  }

  lemma CommitReplacesNothing(cfg: Config, s: State, x: SessionId, ok: bool)
    requires Inv(cfg, s) && Enabled(cfg, s, Server(x, DoCommit(ok)))
    ensures CommitReady(cfg, s.sessions[x].writes)
    ensures forall c | c in s.sessions[x].writes.rows :: Vacant(s.db, c)
  {
    assert SessionOk(cfg, s.db, x, s.sessions[x]);
  }

  /** No step of any run commits a handler's work for a scope that still has an unexpired claim. */
  lemma NoEffectWhileUnexpired(cfg: Config, events: seq<Event>, s: State, e: Event, i: nat)
    requires ValidConfig(cfg) && Leads(cfg, INIT, events, s) && Enabled(cfg, s, e)
    requires |s.db.history| <= i < |Next(cfg, s, e).db.history|
    requires Next(cfg, s, e).db.history[i].writes.mutation.Some?
    ensures var db' := Next(cfg, s, e).db;
      var c := db'.history[i].writes.mutation.value;
      && (c in s.db.table ==> !Unexpired(s.db.table[c], s.db.clock))
      && c in db'.table && db'.history[i] == Committed(s.db.clock, Writes(Some(c), map[c := Some(db'.table[c])]))
  {
    Reached(cfg, events, s);
    WorldStep(cfg, s, e);
    CommitReplacesNothing(cfg, s, e.x, e.serves.ok);
    var w := s.sessions[e.x].writes;
    assert Next(cfg, s, e).db.history[i] == Committed(s.db.clock, w);
    assert w.rows == map[w.mutation.value := w.rows[w.mutation.value]];
  }

  // ---------- the table of claims

  /** The committed table holds the newest claim of each scope, always completed, and loses only expired ones. */
  lemma TableIsTheNewestClaims(cfg: Config, events: seq<Event>, s: State, c: Scope)
    requires ValidConfig(cfg) && Leads(cfg, INIT, events, s)
    ensures c in s.db.table ==>
      && Last(s.db.history, c) == Some(s.db.table[c])
      && s.db.table[c].state.Completed? && s.db.table[c].status.Some? && s.db.table[c].body.Some?
    ensures Last(s.db.history, c).Some? && Unexpired(Last(s.db.history, c).value, s.db.clock) ==> c in s.db.table
  {
    Reached(cfg, events, s);
    assert c in s.db.table ==> Stored(cfg, s.db.table[c]);
  }

  lemma UnexpiredStep(cfg: Config, s: State, e: Event, c: Scope)
    requires Inv(cfg, s) && Enabled(cfg, s, e)
    requires c in s.db.table && Unexpired(s.db.table[c], s.db.clock)
    ensures var db' := Next(cfg, s, e).db; c in db'.table && db'.table[c] == s.db.table[c]
  {
    WorldStep(cfg, s, e);
    if e.Server? && e.serves.DoCommit? {
      CommitReplacesNothing(cfg, s, e.x, e.serves.ok);
      assert c in s.sessions[e.x].writes.rows ==> Vacant(s.db, c);
    }
  }

  lemma {:induction false} ClockAdvances(cfg: Config, s: State, events: seq<Event>, s': State)
    requires Leads(cfg, s, events, s')
    ensures s.db.clock <= s'.db.clock
    decreases |events|
  {
    if events != [] {
      WorldStep(cfg, s, events[0]);
      ClockAdvances(cfg, Next(cfg, s, events[0]), events[1..], s');
    }
  }

  lemma {:induction false} UnexpiredRun(cfg: Config, s: State, events: seq<Event>, s': State, c: Scope)
    requires ValidConfig(cfg) && Inv(cfg, s) && Leads(cfg, s, events, s')
    requires c in s.db.table && Unexpired(s.db.table[c], s'.db.clock)
    ensures c in s'.db.table && s'.db.table[c] == s.db.table[c]
    decreases |events|
  {
    if events != [] {
      ClockAdvances(cfg, s, events, s');
      UnexpiredStep(cfg, s, events[0], c);
      IdempotencySteps.StepKeeps(cfg, s, events[0]);
      UnexpiredRun(cfg, Next(cfg, s, events[0]), events[1..], s', c);
    }
  }

  /** Until it expires a stored result never changes: no replay, retry or purge moves its expiry or its bytes. */
  lemma UnexpiredClaimsAreImmutable(cfg: Config, events: seq<Event>, s: State, more: seq<Event>, s': State, c: Scope)
    requires ValidConfig(cfg) && Leads(cfg, INIT, events, s) && Leads(cfg, s, more, s')
    requires c in s.db.table && Unexpired(s.db.table[c], s'.db.clock)
    ensures c in s'.db.table && s'.db.table[c] == s.db.table[c]
  {
    Reached(cfg, events, s);
    UnexpiredRun(cfg, s, more, s', c);
  }

  // ---------- answers

  lemma {:induction false} LastUnchanged(h: seq<Committed>, c: Scope, m: nat, n: nat)
    requires m <= n <= |h|
    requires forall i | m <= i < n :: c !in h[i].writes.rows
    ensures Last(h[..n], c) == Last(h[..m], c)
    decreases n
  {
    if m < n {
      assert h[..n][..n - 1] == h[..n - 1];
      LastUnchanged(h, c, m, n - 1);
    }
  }

  /** Every success answer is the response that the newest commit of its scope stored, for the same input. */
  lemma AnswersAreCommittedResponses(cfg: Config, events: seq<Event>, s: State, i: nat)
    requires ValidConfig(cfg) && Leads(cfg, INIT, events, s)
    requires i < |s.answers|
    ensures var w := s.answers[i];
      && 200 <= w.response.status < 300 && |w.response.body| <= cfg.maxBytes
      && (if w.response.status == 204 || w.response.status == 205 then w.response.body == [] else cfg.isJson(w.response.body))
      && w.version <= |s.db.history|
      && var r := Last(s.db.history[..w.version], w.scope);
         r.Some? && r.value.fingerprint == w.fingerprint
         && r.value.status == Some(w.response.status) && r.value.body == Some(w.response.body)
  {
    Reached(cfg, events, s);
    assert AnswerOk(s.db.history, s.answers[i]);
    IdempotencySteps.LastStored(cfg, s.db.history[..s.answers[i].version], s.answers[i].scope);
  }

  /** Answers read while one stored result was current agree in input, status and bytes. */
  lemma AnswersAgreeWithinALifetime(cfg: Config, events: seq<Event>, s: State, i: nat, j: nat)
    requires ValidConfig(cfg) && Leads(cfg, INIT, events, s)
    requires i < |s.answers| && j < |s.answers|
    requires s.answers[i].scope == s.answers[j].scope && s.answers[i].version <= s.answers[j].version <= |s.db.history|
    requires forall k | s.answers[i].version <= k < s.answers[j].version ::
      s.db.history[k].writes.mutation != Some(s.answers[i].scope)
    ensures s.answers[i].response == s.answers[j].response && s.answers[i].fingerprint == s.answers[j].fingerprint
  {
    Reached(cfg, events, s);
    var u, w := s.answers[i], s.answers[j];
    assert AnswerOk(s.db.history, u) && AnswerOk(s.db.history, w);
    forall k | u.version <= k < w.version ensures u.scope !in s.db.history[k].writes.rows {
      assert CommitReady(cfg, s.db.history[k].writes);
    }
    LastUnchanged(s.db.history, u.scope, u.version, w.version);
  }

  /** How a complete claim, or none, is judged. */
  lemma StoredJudged(cfg: Config, fingerprint: Digest, found: Option<Record>, now: nat)
    requires ValidConfig(cfg) && (found.Some? ==> Stored(cfg, found.value))
    ensures var v := Judge(cfg, fingerprint, found, now);
      && (v.Insert? <==> found.None?)
      && (v.Refuse? ==> v.cause == Conflict)
      && (found.Some? ==>
            && var r := found.value;
            && (v.Recycle? <==> !Unexpired(r, now))
            && (v.Refuse? <==> Unexpired(r, now) && r.fingerprint != fingerprint)
            && (v.Replay? <==> Unexpired(r, now) && r.fingerprint == fingerprint)
            && (v.Replay? ==> r.status == Some(v.response.status) && r.body == Some(v.response.body)))
  {
  }

  /** An attempt that is about to read the claim has written nothing and sees the committed table. */
  lemma ReadsTheTable(cfg: Config, events: seq<Event>, s: State, a: AttemptId)
    requires ValidConfig(cfg) && Leads(cfg, INIT, events, s) && Enabled(cfg, s, Client(a, Find))
    ensures var t := s.attempts[a];
      && s.sessions[t.session].writes == NOTHING && t.cause == None
      && (t.scope in s.db.table ==> Stored(cfg, s.db.table[t.scope]))
  {
    Reached(cfg, events, s);
    assert AttemptOk(cfg, s, a);
  }

  /** What `begin` does with a claim: replay it, refuse it, reclaim it or go on, and write nothing before it decides. */
  lemma ClaimDecides(cfg: Config, events: seq<Event>, s: State, a: AttemptId)
    requires ValidConfig(cfg) && Leads(cfg, INIT, events, s) && Enabled(cfg, s, Client(a, Find))
    ensures var s' := Next(cfg, s, Client(a, Find));
      var t := s.attempts[a]; var t' := s'.attempts[a];
      && s'.db == s.db && s'.sessions == s.sessions && s.sessions[t.session].writes == NOTHING
      && (t'.phase.Claimable? <==> t.scope !in s.db.table)
      && (t.scope in s.db.table ==>
            && var r := s.db.table[t.scope];
            && r.expiresAt.Some?
            && (t'.phase.Reclaim? <==> r.expiresAt.value <= s.db.clock)
            && (t'.cause == Some(Conflict) <==> r.expiresAt.value > s.db.clock && r.fingerprint != t.fingerprint)
            && (t'.phase.Ready? <==> r.expiresAt.value > s.db.clock && r.fingerprint == t.fingerprint)
            && (t'.phase.Ready? ==> t'.response.Some? && r.status == Some(t'.response.value.status)
                                    && r.body == Some(t'.response.value.body)))
  {
    ReadsTheTable(cfg, events, s, a);
    var t := s.attempts[a];
    var found := Visible(s.db.table, NOTHING, t.scope);
    StoredJudged(cfg, t.fingerprint, found, s.db.clock);
    assert s.sessions[t.session := s.sessions[t.session]] == s.sessions;
  }

  /** The errors for a processing claim, a claim without response, a bad replay, a duplicate claim and a lost claim never occur. */
  lemma GuardedErrorsNeverOccur(cfg: Config, events: seq<Event>, s: State, a: AttemptId)
    requires ValidConfig(cfg) && Leads(cfg, INIT, events, s)
    requires a in s.attempts
    ensures s.attempts[a].cause.None?
      || s.attempts[a].cause.value !in {UnexpectedState, Incomplete, InvalidReplay, DuplicateClaim, NotProcessing}
  {
    Reached(cfg, events, s);
    assert AttemptOk(cfg, s, a);
  }

  // ---------- locks and connections

  /**
   Only the holder of a scope's lock has anything to commit for the scope. In particular once a
   GET_LOCK succeeded, no other session, however late its COMMIT, can still commit for the scope.
   */
  lemma OnlyTheLockHolderCommits(cfg: Config, events: seq<Event>, s: State, x: SessionId, c: Scope)
    requires ValidConfig(cfg) && Leads(cfg, INIT, events, s)
    requires x in s.sessions && !(c in s.db.locks && s.db.locks[c] == x)
    ensures c !in s.sessions[x].writes.rows
    ensures s.sessions[x].request.Commit? ==> s.sessions[x].writes.mutation != Some(c)
  {
    Reached(cfg, events, s);
    assert SessionOk(cfg, s.db, x, s.sessions[x]);
  }

  /** A connection in the pool has no lock, no uncommitted write, no statement on its way and no owner. */
  lemma PooledConnectionsAreClean(cfg: Config, events: seq<Event>, s: State, x: SessionId, c: Scope)
    requires ValidConfig(cfg) && Leads(cfg, INIT, events, s)
    requires x in s.pool
    ensures x in s.sessions
    ensures var y := s.sessions[x]; y.writes == NOTHING && y.request.NoRequest? && y.lease.None?
    ensures c in s.db.locks ==> s.db.locks[c] != x
  {
    Reached(cfg, events, s);
    assert Idle(s.db, x, s.sessions[x]);
    assert !Holds(s.db.locks, x, c);
  }
}
