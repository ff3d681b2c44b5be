/** The inductive invariant of the idempotency protocol. */
module IdempotencyInvariant {
  import opened Options
  import opened Idempotency

  // ---------- locks

  predicate Holds(locks: map<Scope, SessionId>, x: SessionId, c: Scope) {
    c in locks && locks[c] == x
  }

  ghost predicate HoldsNothing(locks: map<Scope, SessionId>, x: SessionId) {
    forall c :: !Holds(locks, x, c)
  }

  ghost predicate HoldsOnly(locks: map<Scope, SessionId>, x: SessionId, c: Scope) {
    forall d :: Holds(locks, x, d) ==> d == c
  }

  // ---------- history

  /** The claim that the newest commit touching scope `c` left behind. */
  function Last(h: seq<Committed>, c: Scope): (r: Option<Record>) {
    if h == [] then None
    else if c in h[|h| - 1].writes.rows then h[|h| - 1].writes.rows[c]
    else Last(h[..|h| - 1], c)
  }

  ghost predicate Stored(cfg: Config, r: Record) {
    && r.state.Completed? && r.status.Some? && r.body.Some? && r.completedAt.Some?
    && r.expiresAt == Some(r.completedAt.value + RETENTION_MS)
    && Storable(cfg, Response(r.status.value, r.body.value), cfg.maxBytes)
  }

  /** What a transaction may commit: nothing, or one handler's work together with one completed claim. */
  ghost predicate CommitReady(cfg: Config, w: Writes) {
    || w == NOTHING
    || (&& w.mutation.Some? && w.rows.Keys == {w.mutation.value}
        && w.rows[w.mutation.value].Some? && Stored(cfg, w.rows[w.mutation.value].value))
  }

  /** `response` is what the newest claim for the scope said when the database had made `version` commits. */
  ghost predicate Backed(h: seq<Committed>, c: Scope, fingerprint: Digest, response: Response, version: nat) {
    && version <= |h|
    && var r := Last(h[..version], c);
       r.Some? && r.value.fingerprint == fingerprint
       && r.value.status == Some(response.status) && r.value.body == Some(response.body)
  }

  /** If both transactions ran the handler for one scope, the earlier result had expired when the later one committed. */
  ghost predicate Spaced(e: Committed, later: Committed) {
    e.writes.mutation.Some? && e.writes.mutation == later.writes.mutation ==>
      var c := e.writes.mutation.value;
      c in e.writes.rows && e.writes.rows[c].Some? && !Unexpired(e.writes.rows[c].value, later.at)
  }

  ghost predicate HistoryOk(cfg: Config, db: Database) {
    var h := db.history;
    && (forall i | 0 <= i < |h| :: h[i].at <= db.clock && CommitReady(cfg, h[i].writes))
    && (forall i, j | 0 <= i < j < |h| :: h[i].at <= h[j].at)
    && (forall i, j | 0 <= i < j < |h| :: Spaced(h[i], h[j]))
  }

  /** The committed table is the newest claim of every scope, less some that have expired. */
  ghost predicate TableOk(cfg: Config, db: Database) {
    && (forall c | c in db.table :: Stored(cfg, db.table[c]) && Last(db.history, c) == Some(db.table[c]))
    && (forall c | Last(db.history, c).Some? && Unexpired(Last(db.history, c).value, db.clock) :: c in db.table)
  }

  // ---------- sessions

  /** No unexpired claim for the scope is committed. */
  predicate Vacant(db: Database, c: Scope) {
    c in db.table ==> !Unexpired(db.table[c], db.clock)
  }

  /** Whatever a live session could still commit is covered by its locks and replaces nothing unexpired. */
  ghost predicate SessionOk(cfg: Config, db: Database, x: SessionId, y: Session) {
    if y.alive then
      && (forall c | c in y.writes.rows :: Holds(db.locks, x, c) && Vacant(db, c))
      && (y.request.Commit? ==> CommitReady(cfg, y.writes))
      && (y.request.ReleaseLock? ==> y.writes == NOTHING)
    else y.writes == NOTHING && y.request.NoRequest?
  }

  ghost predicate Idle(db: Database, x: SessionId, y: Session) {
    && y.lease.None? && y.request.NoRequest? && y.reply.NoReply? && y.writes == NOTHING && HoldsNothing(db.locks, x)
  }

  // ---------- attempts

  /** The claim row is the only row written, in the given form. */
  ghost predicate OnlyRow(w: Writes, c: Scope, r: Record) {
    w.rows.Keys == {c} && w.rows[c] == Some(r)
  }

  ghost predicate CompletedRow(cfg: Config, w: Writes, t: Attempt) {
    && w.mutation == Some(t.scope) && t.response.Some?
    && w.rows.Keys == {t.scope} && w.rows[t.scope].Some?
    && var r := w.rows[t.scope].value;
       Stored(cfg, r) && r.fingerprint == t.fingerprint
       && r.status == Some(t.response.value.status) && r.body == Some(t.response.value.body)
  }

  /** A response that was read, or is about to be written, under the lock. */
  ghost predicate ReadyWrites(cfg: Config, h: seq<Committed>, t: Attempt, w: Writes) {
    && t.response.Some?
    && if t.claimed then CompletedRow(cfg, w, t)
       else w == NOTHING && Backed(h, t.scope, t.fingerprint, t.response.value, t.version)
  }

  /** A lock that the session holds or may still be granted is known to the attempt, or known to be uncertain. */
  ghost predicate LockAccounted(db: Database, t: Attempt, y: Session) {
    && (Holds(db.locks, t.session, t.scope) ==> t.locked || t.uncertain)
    && (y.request.GetLock? ==> y.request.name == t.scope && t.uncertain)
  }

  predicate Quiet(y: Session) {
    y.request.NoRequest? && y.reply.NoReply?
  }

  /** The server side of an attempt's session while that session is alive. */
  ghost predicate LiveOk(cfg: Config, db: Database, t: Attempt, y: Session) {
    var x := t.session;
    var mine := Holds(db.locks, x, t.scope);
    match t.phase
    case Pinned => Quiet(y) && y.writes == NOTHING && !mine
    case AwaitLock =>
      && y.writes == NOTHING
      && (|| (y.request == GetLock(t.scope) && y.reply.NoReply? && !mine)
          || (y.request.NoRequest? && y.reply == LockReply(One) && mine)
          || (y.request.NoRequest? && y.reply.LockReply? && !y.reply.acquired.One? && !mine))
    case Locked => Quiet(y) && y.writes == NOTHING && mine
    case Reclaim => Quiet(y) && y.writes == NOTHING && mine && Vacant(db, t.scope)
    case Claimable =>
      && Quiet(y) && mine
      && y.writes.mutation.None? && y.writes.rows.Keys <= {t.scope}
      && Visible(db.table, y.writes, t.scope).None?
    case Claimed => Quiet(y) && mine && y.writes.mutation.None? && OnlyRow(y.writes, t.scope, NewClaim(t.fingerprint))
    case Prepared =>
      Quiet(y) && mine && y.writes.mutation == Some(t.scope) && OnlyRow(y.writes, t.scope, NewClaim(t.fingerprint))
    case Ready => Quiet(y) && mine && ReadyWrites(cfg, db.history, t, y.writes)
    case Checked => Quiet(y) && mine && ReadyWrites(cfg, db.history, t, y.writes)
    case AwaitCommit =>
      && mine
      && (|| (y.request.Commit? && y.reply.NoReply? && ReadyWrites(cfg, db.history, t, y.writes))
          || (y.request.NoRequest? && y.reply.CommitReply? && y.writes == NOTHING))
    case Failing => LockAccounted(db, t, y)
    case Settled => LockAccounted(db, t, y) && (!MustInvalidate(t) ==> Quiet(y) && y.writes == NOTHING)
    case AwaitRelease =>
      && y.writes == NOTHING
      && (|| (y.request == ReleaseLock(t.scope) && y.reply.NoReply?)
          || (y.request.NoRequest? && y.reply.ReleaseReply? && (y.reply.released ==> !mine)))
    case Done => true
  }

  /** An attempt succeeded if it left its transaction without an exception. */
  predicate Succeeded(t: Attempt) {
    t.phase in {Settled, AwaitRelease} && t.cause.None?
  }

  /** What is known of an attempt and of unread replies even after the session has died. */
  ghost predicate LocalOk(h: seq<Committed>, t: Attempt, y: Session) {
    && !t.delivered
    && (InTransaction(t.phase) ==> t.cause.None? && t.inTxn && !t.invalidated)
    && (t.phase.Failing? ==> t.cause.Some? && t.inTxn)
    && (InTransaction(t.phase) ==> t.uncertain == t.phase.AwaitLock?)
    && (InTransaction(t.phase) ==> t.locked == (t.phase !in {Pinned, AwaitLock}))
    && (t.phase in {Claimed, Prepared} ==> t.claimed)
    && (t.phase in {Pinned, AwaitLock, Locked, Reclaim, Claimable} ==> !t.claimed)
    && (t.phase in {Prepared, Ready, Checked, AwaitCommit} ==> t.response.Some?)
    && (t.phase in {Ready, Checked, AwaitCommit} && !t.claimed ==>
          Backed(h, t.scope, t.fingerprint, t.response.value, t.version))
    && (t.phase.AwaitCommit? && t.claimed && y.reply.CommitReply? && y.reply.ok ==>
          Backed(h, t.scope, t.fingerprint, t.response.value, y.reply.version))
    && (t.phase.AwaitRelease? ==> MustUnlock(t))
    && (Succeeded(t) ==> MustUnlock(t) && t.response.Some?)
    && (Succeeded(t) && t.response.value.status < 400 ==>
          Backed(h, t.scope, t.fingerprint, t.response.value, t.version))
  }

  /** The errors that begin and complete guard against but that no run can reach. */
  predicate Unreachable(c: Cause) {
    c in {UnexpectedState, Incomplete, InvalidReplay, DuplicateClaim, NotProcessing}
  }

  /** An attempt that is still going on, and its session. */
  ghost predicate PairOk(cfg: Config, db: Database, t: Attempt, y: Session) {
    && LocalOk(db.history, t, y)
    && (y.alive ==> HoldsOnly(db.locks, t.session, t.scope) && LiveOk(cfg, db, t, y))
  }

  ghost predicate AttemptOk(cfg: Config, s: State, a: AttemptId)
    requires a in s.attempts
  {
    var t := s.attempts[a];
    && (t.cause.Some? ==> !Unreachable(t.cause.value))
    && t.session in s.sessions
    && (!t.phase.Done? ==>
          && s.sessions[t.session].lease == Some(a) && t.session !in s.pool
          && PairOk(cfg, s.db, t, s.sessions[t.session]))
  }

  ghost predicate AnswerOk(h: seq<Committed>, w: Answer) {
    200 <= w.response.status < 300 && Backed(h, w.scope, w.fingerprint, w.response, w.version)
  }

  ghost predicate LocksLive(s: State) {
    forall c | c in s.db.locks :: s.db.locks[c] in s.sessions && s.sessions[s.db.locks[c]].alive
  }

  ghost predicate Inv(cfg: Config, s: State) {
    && LocksLive(s)
    && (forall x | x in s.sessions :: SessionOk(cfg, s.db, x, s.sessions[x]))
    && (forall x | x in s.pool :: x in s.sessions && Idle(s.db, x, s.sessions[x]))
    && (forall a | a in s.attempts :: AttemptOk(cfg, s, a))
    && HistoryOk(cfg, s.db)
    && TableOk(cfg, s.db)
    && (forall i | 0 <= i < |s.answers| :: AnswerOk(s.db.history, s.answers[i]))
  }
}
