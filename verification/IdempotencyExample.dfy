/**
 The protocol can do its work: a first attempt commits its effect and delivers its answer, and a second
 attempt with the same input gets the same answer without another effect.
 */
module IdempotencyExample {
  import opened Options
  import opened Idempotency

  lemma {:induction false} Extend(cfg: Config, s: State, events: seq<Event>, s': State, e: Event)
    requires Leads(cfg, s, events, s') && Enabled(cfg, s', e)
    ensures Leads(cfg, s, events + [e], Next(cfg, s', e))
    decreases |events|
  {
    if events == [] {
      assert Leads(cfg, Next(cfg, s, e), [], Next(cfg, s, e));
      assert [e][1..] == [];
    } else {
      assert (events + [e])[1..] == events[1..] + [e];
      Extend(cfg, Next(cfg, s, events[0]), events[1..], s', e);
    }
  }

  /** Attempt `a` works on the only session, and `answers` have left the route; the other attempts are `before`. */
  ghost predicate Just(s: State, before: map<AttemptId, Attempt>, answers: seq<Answer>, db: Database, a: AttemptId, t: Attempt, y: Session) {
    && s.db == db && s.attempts == before[a := t] && s.sessions == map[0 := y] && s.pool == {}
    && s.answers == answers && t.session == 0
  }

  /** One event of a run in which only attempt `a` and its session move. */
  lemma Client1(cfg: Config, events: seq<Event>, s: State, before: map<AttemptId, Attempt>, answers: seq<Answer>,
                db: Database, a: AttemptId, t: Attempt, y: Session, step: ClientStep)
    returns (events': seq<Event>, s': State, t': Attempt, y': Session)
    requires Leads(cfg, INIT, events, s) && Just(s, before, answers, db, a, t, y) && CanAct(t, y, step)
    requires !Act(cfg, db, t, y, step).0.phase.Done? && !Act(cfg, db, t, y, step).0.delivered
    ensures Leads(cfg, INIT, events', s') && (t', y') == Act(cfg, db, t, y, step) && Just(s', before, answers, db, a, t', y')
  {
    var e := Client(a, step);
    Extend(cfg, INIT, events, s, e);
    events', s' := events + [e], Next(cfg, s, e);
    t', y' := Act(cfg, db, t, y, step).0, Act(cfg, db, t, y, step).1;
  }

  lemma Server1(cfg: Config, events: seq<Event>, s: State, before: map<AttemptId, Attempt>, answers: seq<Answer>,
                db: Database, a: AttemptId, t: Attempt, y: Session, step: ServerStep)
    returns (events': seq<Event>, s': State, db': Database, y': Session)
    requires Leads(cfg, INIT, events, s) && Just(s, before, answers, db, a, t, y) && CanServe(y, step)
    ensures Leads(cfg, INIT, events', s') && (db', y') == Serve(db, 0, y, step) && Just(s', before, answers, db', a, t, y')
  {
    var e := Server(0, step);
    Extend(cfg, INIT, events, s, e);
    events', s' := events + [e], Next(cfg, s, e);
    db', y' := Serve(db, 0, y, step).0, Serve(db, 0, y, step).1;
  }

  /** The only session is idle in the pool. */
  ghost predicate Resting(s: State, answers: seq<Answer>, db: Database) {
    s.db == db && s.sessions == map[0 := Session(true, NOTHING, NoRequest, NoReply, None)] && s.pool == {0} && s.answers == answers
  }

  function Fresh(c: Scope, f: Digest): Attempt {
    Attempt(c, f, 0, Pinned, false, false, false, true, false, false, None, None, 0, false)
  }

  const LEASED := Session(true, NOTHING, NoRequest, NoReply, None)

  /** From the pinned connection to the granted lock. */
  lemma Locks(cfg: Config, events: seq<Event>, s: State, before: map<AttemptId, Attempt>, answers: seq<Answer>, db: Database, a: AttemptId, c: Scope, f: Digest)
    returns (events': seq<Event>, s': State, t: Attempt, y: Session)
    requires Leads(cfg, INIT, events, s) && c !in db.locks
    requires Just(s, before, answers, db, a, Fresh(c, f), LEASED.(lease := Some(a)))
    ensures Leads(cfg, INIT, events', s') && Just(s', before, answers, db.(locks := db.locks[c := 0]), a, t, y)
    ensures t == Fresh(c, f).(phase := Locked, locked := true) && y == LEASED.(lease := Some(a))
  {
    var db' := db;
    events', s', t, y := events, s, Fresh(c, f), LEASED.(lease := Some(a));
    events', s', t, y := Client1(cfg, events', s', before, answers, db', a, t, y, SendLock);
    events', s', db', y := Server1(cfg, events', s', before, answers, db', a, t, y, GrantLock(false));
    events', s', t, y := Client1(cfg, events', s', before, answers, db', a, t, y, ReceiveLock);
  }

  /** From a response that is ready to the acknowledged COMMIT. */
  lemma Commits(cfg: Config, events: seq<Event>, s: State, before: map<AttemptId, Attempt>, answers: seq<Answer>, db: Database, a: AttemptId, t: Attempt, y: Session)
    returns (events': seq<Event>, s': State, db': Database, t': Attempt, y': Session)
    requires Leads(cfg, INIT, events, s) && Just(s, before, answers, db, a, t, y)
    requires t.phase.Ready? && !t.abandoned && !t.delivered && Online(y)
    ensures Leads(cfg, INIT, events', s') && Just(s', before, answers, db', a, t', y')
    ensures db' == DoCommitServe(db, y, true).0
    ensures t' == t.(phase := Settled, inTxn := false, version := if t.claimed then |db.history| + 1 else t.version)
    ensures y' == y.(writes := NOTHING, request := NoRequest, reply := NoReply)
  {
    events', s', db', t', y' := events, s, db, t, y;
    events', s', t', y' := Client1(cfg, events', s', before, answers, db', a, t', y', FinalCheck);
    events', s', t', y' := Client1(cfg, events', s', before, answers, db', a, t', y', SendCommit);
    events', s', db', y' := Server1(cfg, events', s', before, answers, db', a, t', y', DoCommit(true));
    events', s', t', y' := Client1(cfg, events', s', before, answers, db', a, t', y', ReceiveCommit);
  }

  /** The last event: the unlock is confirmed, the connection goes back and the answer out. */
  lemma Delivers(cfg: Config, events: seq<Event>, s: State, before: map<AttemptId, Attempt>, answers: seq<Answer>, db: Database, a: AttemptId, t: Attempt, y: Session)
    returns (events': seq<Event>, s': State)
    requires Leads(cfg, INIT, events, s) && Just(s, before, answers, db, a, t, y)
    requires t.phase.AwaitRelease? && t.cause == None && !t.delivered && t.response.Some? && t.response.value.status < 400
    requires y == LEASED.(reply := ReleaseReply(true), lease := Some(a))
    ensures Leads(cfg, INIT, events', s')
    ensures Resting(s', answers + [Answer(t.scope, t.fingerprint, t.response.value, t.version)], db)
    ensures s'.attempts.Keys == before.Keys + {a}
  {
    var e := Client(a, ReceiveRelease);
    Extend(cfg, INIT, events, s, e);
    events', s' := events + [e], Next(cfg, s, e);
  }

  /** From the acknowledged COMMIT to the answer. */
  lemma Releases(cfg: Config, events: seq<Event>, s: State, before: map<AttemptId, Attempt>, answers: seq<Answer>, db: Database, a: AttemptId, t: Attempt, y: Session)
    returns (events': seq<Event>, s': State)
    requires Leads(cfg, INIT, events, s) && Just(s, before, answers, db, a, t, y)
    requires t.phase.Settled? && t.locked && !MustInvalidate(t) && t.cause == None && !t.delivered
    requires t.response.Some? && t.response.value.status < 400 && y == LEASED.(lease := Some(a)) && db.locks == map[t.scope := 0]
    ensures Leads(cfg, INIT, events', s')
    ensures Resting(s', answers + [Answer(t.scope, t.fingerprint, t.response.value, t.version)], db.(locks := map[]))
    ensures s'.attempts.Keys == before.Keys + {a}
  {
    var db', t', y' := db, t, y;
    events', s' := events, s;
    events', s', t', y' := Client1(cfg, events', s', before, answers, db', a, t', y', Release);
    events', s', db', y' := Server1(cfg, events', s', before, answers, db', a, t', y', DropLock);
    assert db'.locks == map[];
    events', s' := Delivers(cfg, events', s', before, answers, db', a, t', y');
  }

  /** From the granted lock, with nothing stored, to the claim. */
  lemma Claims(cfg: Config, events: seq<Event>, s: State, db: Database, t: Attempt, y: Session, c: Scope, f: Digest)
    returns (events': seq<Event>, s': State, t': Attempt, y': Session)
    requires Leads(cfg, INIT, events, s) && Just(s, map[], [], db, 0, t, y)
    requires t == Fresh(c, f).(phase := Locked, locked := true) && y == LEASED.(lease := Some(0))
    requires db == Database(0, map[], map[c := 0], [])
    ensures Leads(cfg, INIT, events', s') && Just(s', map[], [], db, 0, t', y')
    ensures t' == t.(phase := Claimed, claimed := true)
    ensures y' == y.(writes := Writes(None, map[c := Some(NewClaim(f))]))
  {
    events', s', t', y' := Client1(cfg, events, s, map[], [], db, 0, t, y, Find);
    events', s', t', y' := Client1(cfg, events', s', map[], [], db, 0, t', y', Claim);
  }

  /** From the claim to the stored response of the handler. */
  lemma Handles(cfg: Config, events: seq<Event>, s: State, db: Database, t: Attempt, y: Session)
    returns (events': seq<Event>, s': State, t': Attempt, y': Session)
    requires ValidConfig(cfg) && Leads(cfg, INIT, events, s) && Just(s, map[], [], db, 0, t, y)
    requires t.phase.Claimed? && !t.abandoned && !t.delivered && Online(y) && db.clock == 0
    requires t.cause == None && y.writes == Writes(None, map[t.scope := Some(NewClaim(t.fingerprint))])
    ensures Leads(cfg, INIT, events', s') && Just(s', map[], [], db, 0, t', y')
    ensures t' == t.(phase := Ready, response := Some(Response(204, [])))
    ensures y' == y.(writes := Writes(Some(t.scope), map[t.scope := Some(StoredClaim(NewClaim(t.fingerprint), Response(204, []), 0))]))
  {
    events', s', t', y' := Client1(cfg, events, s, map[], [], db, 0, t, y, Handle(Some(Response(204, []))));
    events', s', t', y' := Client1(cfg, events', s', map[], [], db, 0, t', y', Complete);
  }

  /** The first attempt, up to its acknowledged COMMIT. */
  lemma FirstCommits(cfg: Config, c: Scope, f: Digest)
    returns (events: seq<Event>, s: State, db: Database, t: Attempt, y: Session)
    requires ValidConfig(cfg)
    ensures Leads(cfg, INIT, events, s) && Just(s, map[], [], db, 0, t, y) && y == LEASED.(lease := Some(0))
    ensures t == Fresh(c, f).(phase := Settled, locked := true, claimed := true, inTxn := false, response := Some(Response(204, [])), version := 1)
    ensures var r := StoredClaim(NewClaim(f), Response(204, []), 0);
      db == Database(0, map[c := r], map[c := 0], [Committed(0, Writes(Some(c), map[c := Some(r)]))])
  {
    var e := Arrive(0, c, f, 0);
    assert Leads(cfg, INIT, [], INIT);
    Extend(cfg, INIT, [], INIT, e);
    events, s := [] + [e], Next(cfg, INIT, e);
    db := Database(0, map[], map[], []);
    events, s, t, y := Locks(cfg, events, s, map[], [], db, 0, c, f);
    db := db.(locks := db.locks[c := 0]);
    events, s, t, y := Claims(cfg, events, s, db, t, y, c, f);
    events, s, t, y := Handles(cfg, events, s, db, t, y);
    events, s, db, t, y := Commits(cfg, events, s, map[], [], db, 0, t, y);
  }

  /** A second attempt on the pooled connection finds the stored response. */
  lemma RetryFinds(cfg: Config, events: seq<Event>, s: State, c: Scope, f: Digest, db: Database, answers: seq<Answer>)
    returns (events': seq<Event>, s': State, t: Attempt, y: Session)
    requires ValidConfig(cfg) && Leads(cfg, INIT, events, s) && Resting(s, answers, db) && s.attempts.Keys == {0}
    requires db.locks == map[] && c in db.table && db.clock == 0
    requires db.table[c] == StoredClaim(NewClaim(f), Response(204, []), 0)
    ensures Leads(cfg, INIT, events', s') && Just(s', s.attempts, answers, db.(locks := map[c := 0]), 1, t, y)
    ensures t == Fresh(c, f).(phase := Ready, locked := true, response := Some(Response(204, [])), version := |db.history|)
    ensures y == LEASED.(lease := Some(1))
  {
    var e := Arrive(1, c, f, 0);
    Extend(cfg, INIT, events, s, e);
    events', s' := events + [e], Next(cfg, s, e);
    events', s', t, y := Locks(cfg, events', s', s.attempts, answers, db, 1, c, f);
    events', s', t, y := Client1(cfg, events', s', s.attempts, answers, db.(locks := db.locks[c := 0]), 1, t, y, Find);
  }

  /** It replays the response and commits nothing. */
  lemma RetryReplays(cfg: Config, events: seq<Event>, s: State, c: Scope, f: Digest, db: Database, first: Answer)
    returns (events': seq<Event>, s': State)
    requires ValidConfig(cfg) && Leads(cfg, INIT, events, s) && Resting(s, [first], db) && s.attempts.Keys == {0}
    requires db.locks == map[] && c in db.table && db.clock == 0
    requires db.table[c] == StoredClaim(NewClaim(f), Response(204, []), 0)
    ensures Leads(cfg, INIT, events', s')
    ensures s'.answers == [first, Answer(c, f, Response(204, []), |db.history|)]
    ensures s'.db.history == db.history + [Committed(0, NOTHING)] && s'.db.table == db.table
  {
    assert Apply(db.table, map[]) == db.table;
    var t: Attempt, y: Session;
    events', s', t, y := RetryFinds(cfg, events, s, c, f, db, [first]);
    var db' := db.(locks := map[c := 0]);
    events', s', db', t, y := Commits(cfg, events', s', s.attempts, [first], db', 1, t, y);
    events', s' := Releases(cfg, events', s', s.attempts, [first], db', 1, t, y);
  }

  /**
   For every scope and fingerprint some run commits one effect with its claim and delivers two answers,
   the second a replay of the first: the guarantees of the protocol are not about runs in which nothing happens.
   */
  lemma FirstAttemptCommits(cfg: Config, c: Scope, f: Digest) returns (events: seq<Event>, s: State)
    requires ValidConfig(cfg)
    ensures Leads(cfg, INIT, events, s)
    ensures |s.db.history| == 2 && s.db.history[0].writes.mutation == Some(c) && s.db.history[1].writes == NOTHING
    ensures c in s.db.history[0].writes.rows && s.db.history[0].writes.rows[c].Some?
    ensures c in s.db.table && s.db.table[c].status == Some(204) && s.db.table[c].fingerprint == f
    ensures |s.answers| == 2 && s.answers[0] == s.answers[1] == Answer(c, f, Response(204, []), 1)
  {
    var db: Database, t: Attempt, y: Session;
    events, s, db, t, y := FirstCommits(cfg, c, f);
    events, s := Releases(cfg, events, s, map[], [], db, 0, t, y);
    db := db.(locks := map[]);
    events, s := RetryReplays(cfg, events, s, c, f, db, s.answers[0]);
  }
}
