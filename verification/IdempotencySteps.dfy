/** Every step of the idempotency protocol keeps the invariant. */
module IdempotencySteps {
  import opened Options
  import opened Idempotency
  import opened IdempotencyInvariant

  // ---------- what a step leaves alone

  /**
   For session `x` the database only moved on: its locks are the same, its locked rows are the same
   or expired and went away, the history grew and time passed.
   */
  ghost predicate Advances(db: Database, db': Database, x: SessionId) {
    && db.clock <= db'.clock
    && db.history <= db'.history
    && (forall c :: Holds(db.locks, x, c) <==> Holds(db'.locks, x, c))
    && (forall c | Holds(db.locks, x, c) && c in db'.table :: c in db.table && db'.table[c] == db.table[c])
  }

  lemma BackedExtends(h: seq<Committed>, h': seq<Committed>, c: Scope, fingerprint: Digest, r: Response, version: nat)
    requires h <= h'
    requires Backed(h, c, fingerprint, r, version)
    ensures Backed(h', c, fingerprint, r, version)
  {
    assert h'[..version] == h[..version];
  }

  lemma SessionAdvances(cfg: Config, db: Database, db': Database, x: SessionId, y: Session)
    requires Advances(db, db', x) && SessionOk(cfg, db, x, y)
    ensures SessionOk(cfg, db', x, y)
  {
  }

  lemma LocalAdvances(h: seq<Committed>, h': seq<Committed>, t: Attempt, y: Session)
    requires h <= h' && LocalOk(h, t, y)
    ensures LocalOk(h', t, y)
  {
    if t.response.Some? {
      if Backed(h, t.scope, t.fingerprint, t.response.value, t.version) {
        BackedExtends(h, h', t.scope, t.fingerprint, t.response.value, t.version);
      }
      if y.reply.CommitReply? && Backed(h, t.scope, t.fingerprint, t.response.value, y.reply.version) {
        BackedExtends(h, h', t.scope, t.fingerprint, t.response.value, y.reply.version);
      }
    }
  }

  lemma PairAdvances(cfg: Config, db: Database, db': Database, t: Attempt, y: Session)
    requires Advances(db, db', t.session) && PairOk(cfg, db, t, y)
    ensures PairOk(cfg, db', t, y)
  {
    LocalAdvances(db.history, db'.history, t, y);
    if t.response.Some? && Backed(db.history, t.scope, t.fingerprint, t.response.value, t.version) {
      BackedExtends(db.history, db'.history, t.scope, t.fingerprint, t.response.value, t.version);
    }
    assert Holds(db.locks, t.session, t.scope) <==> Holds(db'.locks, t.session, t.scope);
  }

  // ---------- client steps

  /** What one step of an attempt owes, whatever the rest of the system looks like. */
  ghost predicate ActOk(cfg: Config, db: Database, t: Attempt, y: Session, t': Attempt, y': Session) {
    && t'.session == t.session && y'.alive == y.alive
    && (t'.cause.Some? ==> !Unreachable(t'.cause.value))
    && SessionOk(cfg, db, t.session, y')
    && (if t'.phase.Done? then
          && y'.lease.None?
          && (!t'.invalidated ==> y.alive ==> Idle(db, t.session, y'))
          && (!t'.invalidated ==> Quiet(y') && y'.writes == NOTHING)
        else
          y'.lease == y.lease && PairOk(cfg, db, t', y'))
    && (t'.delivered ==> t'.phase.Done? && t'.response.Some?)
    && (t'.delivered && t'.response.value.status < 400 ==>
          Backed(db.history, t'.scope, t'.fingerprint, t'.response.value, t'.version))
  }

  ghost predicate ActReady(cfg: Config, db: Database, t: Attempt, y: Session) {
    && !t.phase.Done?
    && (t.cause.Some? ==> !Unreachable(t.cause.value))
    && SessionOk(cfg, db, t.session, y) && PairOk(cfg, db, t, y)
  }

  lemma LockActs(cfg: Config, db: Database, t: Attempt, y: Session, step: ClientStep)
    requires ActReady(cfg, db, t, y) && CanAct(t, y, step)
    requires step.SendLock? || step.ReceiveLock?
    ensures var (t', y') := Act(cfg, db, t, y, step); ActOk(cfg, db, t, y, t', y')
  {
  }

  lemma FindActs(cfg: Config, db: Database, t: Attempt, y: Session)
    requires ValidConfig(cfg)
    requires ActReady(cfg, db, t, y) && CanAct(t, y, Find) && TableOk(cfg, db)
    ensures var (t', y') := Act(cfg, db, t, y, Find); ActOk(cfg, db, t, y, t', y')
  {
    assert db.history[..|db.history|] == db.history;
    assert t.scope in db.table ==> Stored(cfg, db.table[t.scope]);
  }

  lemma DeleteExpiredActs(cfg: Config, db: Database, t: Attempt, y: Session)
    requires ActReady(cfg, db, t, y) && CanAct(t, y, DeleteExpired) && TableOk(cfg, db)
    ensures var (t', y') := Act(cfg, db, t, y, DeleteExpired); ActOk(cfg, db, t, y, t', y')
  {
    assert t.scope in db.table ==> Stored(cfg, db.table[t.scope]);
  }

  lemma ClaimActs(cfg: Config, db: Database, t: Attempt, y: Session)
    requires ActReady(cfg, db, t, y) && CanAct(t, y, Claim)
    ensures var (t', y') := Act(cfg, db, t, y, Claim); ActOk(cfg, db, t, y, t', y')
  {
    assert Put(y.writes, t.scope, Some(NewClaim(t.fingerprint))).rows.Keys == {t.scope};
  }

  lemma HandleActs(cfg: Config, db: Database, t: Attempt, y: Session, outcome: Option<Response>)
    requires ActReady(cfg, db, t, y) && CanAct(t, y, Handle(outcome))
    ensures var (t', y') := Act(cfg, db, t, y, Handle(outcome)); ActOk(cfg, db, t, y, t', y')
  {
  }

  /** The completed claim is the one row of the session, and the attempt's response is in it. */
  lemma CompletedWrites(cfg: Config, t: Attempt, y: Session, now: nat)
    requires OnlyRow(y.writes, t.scope, NewClaim(t.fingerprint)) && y.writes.mutation == Some(t.scope)
    requires t.response.Some? && Storable(cfg, t.response.value, cfg.maxBytes)
    ensures CompletedRow(cfg, Put(y.writes, t.scope, Some(StoredClaim(NewClaim(t.fingerprint), t.response.value, now))), t)
  {
  }

  lemma CompleteActs(cfg: Config, db: Database, t: Attempt, y: Session)
    requires ActReady(cfg, db, t, y) && CanAct(t, y, Complete)
    ensures var (t', y') := Act(cfg, db, t, y, Complete); ActOk(cfg, db, t, y, t', y')
  {
    assert y.writes.rows[t.scope] == Some(NewClaim(t.fingerprint));
    if Storable(cfg, t.response.value, cfg.maxBytes) {
      CompletedWrites(cfg, t, y, db.clock);
    }
  }

  lemma SendCommitActs(cfg: Config, db: Database, t: Attempt, y: Session, step: ClientStep)
    requires ActReady(cfg, db, t, y) && CanAct(t, y, step)
    requires step.FinalCheck? || step.SendCommit?
    ensures var (t', y') := Act(cfg, db, t, y, step); ActOk(cfg, db, t, y, t', y')
  {
  }

  lemma ReceiveCommitActs(cfg: Config, db: Database, t: Attempt, y: Session)
    requires ActReady(cfg, db, t, y) && CanAct(t, y, ReceiveCommit)
    ensures var (t', y') := Act(cfg, db, t, y, ReceiveCommit); ActOk(cfg, db, t, y, t', y')
  {
  }

  lemma FailActs(cfg: Config, db: Database, t: Attempt, y: Session, step: ClientStep)
    requires ActReady(cfg, db, t, y) && CanAct(t, y, step)
    requires step.Abandon? || step.Fail? || step.RejectResponse? || step.Rollback? || step.LoseRollback?
    ensures var (t', y') := Act(cfg, db, t, y, step); ActOk(cfg, db, t, y, t', y')
  {
  }

  lemma ReleaseActs(cfg: Config, db: Database, t: Attempt, y: Session, step: ClientStep)
    requires ActReady(cfg, db, t, y) && CanAct(t, y, step)
    requires step.Release? || step.ReceiveRelease? || step.LoseRelease?
    ensures var (t', y') := Act(cfg, db, t, y, step); ActOk(cfg, db, t, y, t', y')
  {
  }

  lemma ClientActs(cfg: Config, db: Database, t: Attempt, y: Session, step: ClientStep)
    requires ValidConfig(cfg)
    requires ActReady(cfg, db, t, y) && CanAct(t, y, step) && TableOk(cfg, db)
    ensures var (t', y') := Act(cfg, db, t, y, step); ActOk(cfg, db, t, y, t', y')
  {
    match step {
      case SendLock => LockActs(cfg, db, t, y, step);
      case ReceiveLock => LockActs(cfg, db, t, y, step);
      case Find => FindActs(cfg, db, t, y);
      case DeleteExpired => DeleteExpiredActs(cfg, db, t, y);
      case Claim => ClaimActs(cfg, db, t, y);
      case Handle(outcome) => HandleActs(cfg, db, t, y, outcome);
      case Complete => CompleteActs(cfg, db, t, y);
      case FinalCheck => SendCommitActs(cfg, db, t, y, step);
      case SendCommit => SendCommitActs(cfg, db, t, y, step);
      case ReceiveCommit => ReceiveCommitActs(cfg, db, t, y);
      case Release => ReleaseActs(cfg, db, t, y, step);
      case ReceiveRelease => ReleaseActs(cfg, db, t, y, step);
      case LoseRelease => ReleaseActs(cfg, db, t, y, step);
      case _ => FailActs(cfg, db, t, y, step);
    }
  }

  /** A claim that some commit of a well-formed history left behind is a stored one. */
  lemma {:induction false} LastStored(cfg: Config, h: seq<Committed>, c: Scope)
    requires forall i | 0 <= i < |h| :: CommitReady(cfg, h[i].writes)
    requires Last(h, c).Some?
    ensures Stored(cfg, Last(h, c).value)
  {
    if c !in h[|h| - 1].writes.rows {
      LastStored(cfg, h[..|h| - 1], c);
    }
  }

  /** A step that changes attempt `a` and its session as `ActOk` allows. */
  lemma LocalStep(cfg: Config, s: State, s': State, a: AttemptId, t': Attempt, y': Session)
    requires Inv(cfg, s)
    requires a in s.attempts && !s.attempts[a].phase.Done? && s.attempts[a].session in s.sessions
    requires var t := s.attempts[a];
      && ActOk(cfg, s.db, t, s.sessions[t.session], t', y')
      && s' == s.(attempts := s.attempts[a := t'], sessions := s.sessions[t.session := y'],
                  pool := if Returned(t, t') then s.pool + {t.session} else s.pool, answers := s.answers + Answers(t, t'))
    ensures Inv(cfg, s')
  {
    var t := s.attempts[a];
    assert AttemptOk(cfg, s, a);
    forall b | b in s'.attempts && b != a ensures AttemptOk(cfg, s', b) {
      assert AttemptOk(cfg, s, b);
    }
    if Returned(t, t') {
      assert Idle(s.db, t.session, y');
    }
    forall z | z in s'.sessions ensures SessionOk(cfg, s'.db, z, s'.sessions[z]) {
      assert z != t.session ==> SessionOk(cfg, s.db, z, s.sessions[z]);
    }
    if Answers(t, t') != [] {
      LastStored(cfg, s.db.history[..t'.version], t'.scope);
    }
  }

  lemma ClientKeeps(cfg: Config, s: State, a: AttemptId, step: ClientStep)
    requires ValidConfig(cfg)
    requires Inv(cfg, s) && Enabled(cfg, s, Client(a, step))
    ensures Inv(cfg, DoClient(cfg, s, a, step))
  {
    var t := s.attempts[a];
    var y := s.sessions[t.session];
    var s' := DoClient(cfg, s, a, step);
    assert AttemptOk(cfg, s, a);
    if t.phase.Done? {
      assert step.Abandon?;
      forall b | b in s'.attempts ensures AttemptOk(cfg, s', b) {
        assert AttemptOk(cfg, s, b);
      }
    } else {
      ClientActs(cfg, s.db, t, y, step);
      var (t', y') := Act(cfg, s.db, t, y, step);
      LocalStep(cfg, s, s', a, t', y');
    }
  }

  lemma ArriveKeeps(cfg: Config, s: State, a: AttemptId, scope: Scope, fingerprint: Digest, x: SessionId)
    requires Inv(cfg, s)
    requires Enabled(cfg, s, Arrive(a, scope, fingerprint, x))
    ensures Inv(cfg, DoArrive(s, a, scope, fingerprint, x))
  {
    var s' := DoArrive(s, a, scope, fingerprint, x);
    assert HoldsNothing(s.db.locks, x);
    forall b | b in s'.attempts && b != a ensures AttemptOk(cfg, s', b) {
      assert AttemptOk(cfg, s, b);
    }
    assert !Holds(s.db.locks, x, scope);
    assert PairOk(cfg, s'.db, s'.attempts[a], s'.sessions[x]);
    forall z | z in s'.sessions ensures SessionOk(cfg, s'.db, z, s'.sessions[z]) {
      assert z != x ==> SessionOk(cfg, s.db, z, s.sessions[z]);
    }
  }

  // ---------- server steps

  /** What one server step of session `x` owes, to itself and to the others. */
  ghost predicate ServeOk(cfg: Config, db: Database, db': Database, x: SessionId, y: Session, y': Session) {
    && SessionOk(cfg, db', x, y') && y'.lease == y.lease
    && (forall z | z != x :: Advances(db, db', z))
    && (forall c | c in db'.locks :: c in db.locks || (db'.locks[c] == x && y'.alive))
    && (forall c | c in db'.locks && db'.locks[c] == x :: y'.alive)
    && HistoryOk(cfg, db') && TableOk(cfg, db')
    && db.history <= db'.history
  }

  lemma ServerStepKeeps(cfg: Config, s: State, x: SessionId, db': Database, y': Session)
    requires Inv(cfg, s) && x in s.sessions
    requires ServeOk(cfg, s.db, db', x, s.sessions[x], y')
    requires x in s.pool ==> Idle(db', x, y')
    requires forall a | a in s.attempts && s.attempts[a].session == x && !s.attempts[a].phase.Done? ::
      PairOk(cfg, s.db, s.attempts[a], s.sessions[x]) ==> PairOk(cfg, db', s.attempts[a], y')
    ensures Inv(cfg, s.(db := db', sessions := s.sessions[x := y']))
  {
    var s' := s.(db := db', sessions := s.sessions[x := y']);
    forall c | c in db'.locks ensures db'.locks[c] in s'.sessions && s'.sessions[db'.locks[c]].alive {
      if db'.locks[c] != x {
        assert Advances(s.db, db', db'.locks[c]);
        assert Holds(db'.locks, db'.locks[c], c);
      }
    }
    forall z | z in s'.sessions ensures SessionOk(cfg, db', z, s'.sessions[z]) {
      if z != x {
        assert SessionOk(cfg, s.db, z, s.sessions[z]);
        SessionAdvances(cfg, s.db, db', z, s.sessions[z]);
      }
    }
    forall z | z in s'.pool ensures z in s'.sessions && Idle(db', z, s'.sessions[z]) {
      assert Idle(s.db, z, s.sessions[z]);
      assert z != x ==> Advances(s.db, db', z);
    }
    forall a | a in s'.attempts ensures AttemptOk(cfg, s', a) {
      assert AttemptOk(cfg, s, a);
      if !s.attempts[a].phase.Done? && s.attempts[a].session != x {
        PairAdvances(cfg, s.db, db', s.attempts[a], s.sessions[s.attempts[a].session]);
      }
    }
    forall i | 0 <= i < |s'.answers| ensures AnswerOk(db'.history, s'.answers[i]) {
      var w := s.answers[i];
      BackedExtends(s.db.history, db'.history, w.scope, w.fingerprint, w.response, w.version);
    }
  }

  lemma LockServes(cfg: Config, db: Database, x: SessionId, y: Session, step: ServerStep)
    requires SessionOk(cfg, db, x, y) && HistoryOk(cfg, db) && TableOk(cfg, db) && CanServe(y, step)
    requires step.GrantLock? || step.DropLock? || step.Die?
    ensures var (db', y') := Serve(db, x, y, step); ServeOk(cfg, db, db', x, y, y')
  {
    var (db', y') := Serve(db, x, y, step);
    assert forall c :: step.GrantLock? && Holds(db.locks, x, c) ==> Holds(db'.locks, x, c);
  }

  lemma LockServesPair(cfg: Config, db: Database, t: Attempt, y: Session, step: ServerStep)
    requires PairOk(cfg, db, t, y) && !t.phase.Done? && CanServe(y, step)
    requires step.GrantLock? || step.DropLock? || step.Die?
    ensures var (db', y') := Serve(db, t.session, y, step); PairOk(cfg, db', t, y')
  {
    var (db', y') := Serve(db, t.session, y, step);
    assert forall d :: Holds(db'.locks, t.session, d) ==>
      Holds(db.locks, t.session, d) || (step.GrantLock? && d == y.request.name);
  }

  // ---------- COMMIT

  /** Appending an entry changes the newest claim of the scopes it touches and of no others. */
  lemma LastAppend(h: seq<Committed>, e: Committed, c: Scope)
    ensures Last(h + [e], c) == if c in e.writes.rows then e.writes.rows[c] else Last(h, c)
  {
    assert (h + [e])[..|h|] == h;
  }

  /** Entry `j` ran the handler of scope `c` and left the newest claim of the scope. */
  ghost predicate IsNewest(h: seq<Committed>, c: Scope, j: nat) {
    j < |h| && h[j].writes.mutation == Some(c) && c in h[j].writes.rows && Last(h, c) == h[j].writes.rows[c]
  }

  /** A scope's handler ran in entry `i`: the newest claim of the scope is at least as young. */
  lemma {:induction false} LastAfter(cfg: Config, h: seq<Committed>, c: Scope, i: nat) returns (j: nat)
    requires forall k | 0 <= k < |h| :: CommitReady(cfg, h[k].writes)
    requires i < |h| && h[i].writes.mutation == Some(c)
    ensures i <= j && IsNewest(h, c, j)
  {
    assert CommitReady(cfg, h[|h| - 1].writes);
    if c in h[|h| - 1].writes.rows {
      j := |h| - 1;
    } else {
      j := LastAfter(cfg, h[..|h| - 1], c, i);
    }
  }

  /** A commit that replaces nothing unexpired comes after the expiry of every earlier claim of its scope. */
  lemma CommitSpaced(cfg: Config, db: Database, w: Writes, i: nat)
    requires HistoryOk(cfg, db) && TableOk(cfg, db)
    requires CommitReady(cfg, w) && forall c | c in w.rows :: Vacant(db, c)
    requires i < |db.history|
    ensures Spaced(db.history[i], Committed(db.clock, w))
  {
    var h := db.history;
    if h[i].writes.mutation.Some? && h[i].writes.mutation == w.mutation {
      var c := w.mutation.value;
      var j := LastAfter(cfg, h, c, i);
      assert CommitReady(cfg, h[j].writes);
      assert Vacant(db, c);
      assert !Unexpired(Last(h, c).value, db.clock);
      assert i < j ==> Spaced(h[i], h[j]) && h[j].at <= db.clock;
    }
  }

  lemma CommitHistory(cfg: Config, db: Database, w: Writes)
    requires HistoryOk(cfg, db) && TableOk(cfg, db)
    requires CommitReady(cfg, w) && forall c | c in w.rows :: Vacant(db, c)
    ensures HistoryOk(cfg, db.(history := db.history + [Committed(db.clock, w)]))
  {
    var h := db.history + [Committed(db.clock, w)];
    forall i, j | 0 <= i < j < |h| ensures Spaced(h[i], h[j]) {
      if j == |db.history| {
        CommitSpaced(cfg, db, w, i);
      } else {
        assert Spaced(db.history[i], db.history[j]);
      }
    }
  }

  lemma CommitTable(cfg: Config, db: Database, w: Writes)
    requires TableOk(cfg, db) && CommitReady(cfg, w)
    ensures TableOk(cfg, db.(table := Apply(db.table, w.rows), history := db.history + [Committed(db.clock, w)]))
  {
    var e := Committed(db.clock, w);
    forall c ensures Last(db.history + [e], c) == if c in w.rows then w.rows[c] else Last(db.history, c) {
      LastAppend(db.history, e, c);
    }
  }

  lemma CommitServes(cfg: Config, db: Database, x: SessionId, y: Session, ok: bool)
    requires SessionOk(cfg, db, x, y) && HistoryOk(cfg, db) && TableOk(cfg, db) && CanServe(y, DoCommit(ok))
    ensures var (db', y') := DoCommitServe(db, y, ok); ServeOk(cfg, db, db', x, y, y')
  {
    var (db', y') := DoCommitServe(db, y, ok);
    CommitHistory(cfg, db, y.writes);
    CommitTable(cfg, db, y.writes);
    assert ok ==> HistoryOk(cfg, db.(history := db'.history));
  }

  lemma CommitServesPair(cfg: Config, db: Database, t: Attempt, y: Session, ok: bool)
    requires PairOk(cfg, db, t, y) && CanServe(y, DoCommit(ok))
    ensures var (db', y') := DoCommitServe(db, y, ok); PairOk(cfg, db', t, y')
  {
    var (db', y') := DoCommitServe(db, y, ok);
    LocalAdvances(db.history, db'.history, t, y);
    assert db'.history[..|db'.history|] == db'.history;
    LastAppend(db.history, Committed(db.clock, y.writes), t.scope);
  }

  lemma ServerKeeps(cfg: Config, s: State, x: SessionId, step: ServerStep)
    requires Inv(cfg, s) && Enabled(cfg, s, Server(x, step))
    ensures Inv(cfg, DoServer(cfg, s, x, step))
  {
    var y := s.sessions[x];
    var (db', y') := Serve(s.db, x, y, step);
    assert SessionOk(cfg, s.db, x, y);
    if step.DoCommit? {
      CommitServes(cfg, s.db, x, y, step.ok);
    } else {
      LockServes(cfg, s.db, x, y, step);
    }
    forall a | a in s.attempts && s.attempts[a].session == x && !s.attempts[a].phase.Done? && PairOk(cfg, s.db, s.attempts[a], y)
      ensures PairOk(cfg, db', s.attempts[a], y')
    {
      if step.DoCommit? {
        CommitServesPair(cfg, s.db, s.attempts[a], y, step.ok);
      } else {
        LockServesPair(cfg, s.db, s.attempts[a], y, step);
      }
    }
    ServerStepKeeps(cfg, s, x, db', y');
  }

  // ---------- the environment

  /** Time passes or expired claims are purged. */
  lemma WorldKeeps(cfg: Config, s: State, db': Database)
    requires Inv(cfg, s)
    requires s.db.clock <= db'.clock && db'.locks == s.db.locks && db'.history == s.db.history
    requires forall c | c in db'.table :: c in s.db.table && db'.table[c] == s.db.table[c]
    requires forall c | c in s.db.table && c !in db'.table :: !Unexpired(s.db.table[c], db'.clock)
    ensures Inv(cfg, s.(db := db'))
  {
    var s' := s.(db := db');
    forall x ensures Advances(s.db, db', x) {}
    forall x | x in s'.sessions ensures SessionOk(cfg, db', x, s'.sessions[x]) {
      SessionAdvances(cfg, s.db, db', x, s.sessions[x]);
    }
    forall x | x in s'.pool ensures x in s'.sessions && Idle(db', x, s'.sessions[x]) {
      assert Idle(s.db, x, s.sessions[x]);
    }
    forall a | a in s'.attempts ensures AttemptOk(cfg, s', a) {
      assert AttemptOk(cfg, s, a);
      if !s.attempts[a].phase.Done? {
        PairAdvances(cfg, s.db, db', s.attempts[a], s.sessions[s.attempts[a].session]);
      }
    }
  }

  lemma TickKeeps(cfg: Config, s: State, elapsed: nat)
    requires Inv(cfg, s)
    ensures Inv(cfg, DoTick(s, elapsed))
  {
    WorldKeeps(cfg, s, s.db.(clock := s.db.clock + elapsed));
  }

  lemma PurgeKeeps(cfg: Config, s: State, scopes: set<Scope>)
    requires Inv(cfg, s)
    requires forall c | c in scopes :: c in s.db.table && Reclaimable(s.db.table[c], s.db.clock)
    ensures Inv(cfg, DoPurge(s, scopes))
  {
    WorldKeeps(cfg, s, s.db.(table := s.db.table - scopes));
  }

  // ---------- all steps

  lemma OutsideKeeps(cfg: Config, s: State, e: Event)
    requires Inv(cfg, s) && Enabled(cfg, s, e) && !e.Client? && !e.Server?
    ensures Inv(cfg, Next(cfg, s, e))
  {
    match e
    case Arrive(a, scope, fingerprint, x) => ArriveKeeps(cfg, s, a, scope, fingerprint, x);
    case Tick(elapsed) => TickKeeps(cfg, s, elapsed);
    case Purge(scopes) => PurgeKeeps(cfg, s, scopes);
  }

  lemma StepKeeps(cfg: Config, s: State, e: Event)
    requires ValidConfig(cfg)
    requires Inv(cfg, s) && Enabled(cfg, s, e)
    ensures Inv(cfg, Next(cfg, s, e))
  {
    match e
    case Client(a, step) => ClientKeeps(cfg, s, a, step);
    case Server(x, step) => ServerKeeps(cfg, s, x, step);
    case _ => OutsideKeeps(cfg, s, e);
  }
}
