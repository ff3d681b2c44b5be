/**
 Durable idempotent mutations as a labelled transition system.

 Every HTTP attempt that carries an Idempotency-Key pins one database connection and walks through
 the phases of `ApplicationRoute.handle` and `IdempotencyExecution`. The database is a table of
 committed claims, a table of advisory locks, a clock and one session per connection with a private
 write set. GET_LOCK, COMMIT and RELEASE_LOCK are split into sending, server execution and receipt,
 so that any acknowledgement can be lost; every other statement touches only the private write set
 and is one step. A session can die, and any attempt can fail, between any two steps.
 */
module Idempotency {
  import opened Options

  type Scope = string
  type Digest = string
  type AttemptId = nat
  type SessionId = nat
  newtype Byte = b: int | 0 <= b < 256
  type Bytes = seq<Byte>

  /** A day, in the milliseconds of UTC_TIMESTAMP(3). */
  const RETENTION_MS: nat := 86_400_000
  /** The bound that a replay applies to a stored body, whatever the configured bound is. */
  const REPLAY_LIMIT: nat := 65536

  /** The configured response bound, and which byte strings decode as strict JSON. */
  datatype Config = Config(maxBytes: nat, isJson: Bytes -> bool)

  ghost predicate ValidConfig(cfg: Config) {
    1 <= cfg.maxBytes <= REPLAY_LIMIT
  }

  datatype Response = Response(status: nat, body: Bytes)

  /** `validate_response`: true iff it returns instead of raising. */
  predicate Storable(cfg: Config, r: Response, limit: nat) {
    && 200 <= r.status < 300
    && |r.body| <= limit
    && (if r.status in {204, 205} then r.body == [] else cfg.isJson(r.body))
  }

  datatype ClaimState = Processing | Completed

  datatype Record = Record(
    fingerprint: Digest, state: ClaimState, status: Option<nat>, body: Option<Bytes>,
    completedAt: Option<nat>, expiresAt: Option<nat>)

  /** The selected `expires_at > UTC_TIMESTAMP(3)`, with NULL read as false. */
  predicate Unexpired(r: Record, now: nat) {
    r.expiresAt.Some? && r.expiresAt.value > now
  }

  /** The `completed` and `expires_at <= UTC_TIMESTAMP(3)` condition of both DELETE statements. */
  predicate Reclaimable(r: Record, now: nat) {
    r.state.Completed? && r.expiresAt.Some? && r.expiresAt.value <= now
  }

  function NewClaim(fingerprint: Digest): Record {
    Record(fingerprint, Processing, None, None, None, None)
  }

  function StoredClaim(claim: Record, r: Response, now: nat): Record {
    claim.(state := Completed, status := Some(r.status), body := Some(r.body),
           completedAt := Some(now), expiresAt := Some(now + RETENTION_MS))
  }

  /** Uncommitted work of one transaction: the scope whose handler ran, and the claim rows it wrote or deleted. */
  datatype Writes = Writes(mutation: Option<Scope>, rows: map<Scope, Option<Record>>)

  const NOTHING := Writes(None, map[])

  datatype Request = NoRequest | GetLock(name: Scope) | Commit | ReleaseLock(name: Scope)

  /** GET_LOCK returns 1, 0 or something else, which is NULL in MySQL. */
  datatype LockResult = One | Zero | Null

  /** `released` says that RELEASE_LOCK returned 1. */
  datatype Reply =
    | NoReply
    | LockReply(acquired: LockResult)
    | CommitReply(ok: bool, version: nat)
    | ReleaseReply(released: bool)

  /** A server session; `lease` is the attempt whose connection object still uses it. */
  datatype Session = Session(alive: bool, writes: Writes, request: Request, reply: Reply, lease: Option<AttemptId>)

  /** What an attempt does next. */
  datatype Phase =
    | Pinned         // connection checked out, transaction begun
    | AwaitLock      // GET_LOCK sent
    | Locked         // lock granted, claim not read yet
    | Reclaim        // an expired claim was read
    | Claimable      // nothing left in the way of the claim
    | Claimed        // claim inserted, handler not finished
    | Prepared       // handler returned a response
    | Ready          // response stored, or a replay found
    | Checked        // last activity check passed
    | AwaitCommit    // COMMIT sent
    | Failing        // an exception is unwinding the transaction
    | Settled        // transaction left, lock not released yet
    | AwaitRelease   // RELEASE_LOCK sent
    | Done

  datatype Cause =
    | Interrupted | Busy | LockUncertain | UnexpectedState | Conflict | Incomplete | InvalidReplay
    | DuplicateClaim | Expired | HandlerRaised | InvalidResponse | NotProcessing | CommitFailed

  /**
   The client side of one attempt. `version` is the number of commits the database had made when
   the response was read from it or committed to it; `delivered` says that no exception left the
   route once the connection was given up.
   */
  datatype Attempt = Attempt(
    scope: Scope, fingerprint: Digest, session: SessionId, phase: Phase,
    locked: bool, uncertain: bool, claimed: bool, inTxn: bool, invalidated: bool,
    abandoned: bool, cause: Option<Cause>, response: Option<Response>, version: nat, delivered: bool)

  /** One committed transaction of an attempt. */
  datatype Committed = Committed(at: nat, writes: Writes)

  /** A success answer that left the route. */
  datatype Answer = Answer(scope: Scope, fingerprint: Digest, response: Response, version: nat)

  /** What all sessions share: the clock, the committed claims, the advisory locks and the log of commits. */
  datatype Database = Database(
    clock: nat, table: map<Scope, Record>, locks: map<Scope, SessionId>, history: seq<Committed>)

  datatype State = State(
    db: Database, sessions: map<SessionId, Session>, pool: set<SessionId>,
    attempts: map<AttemptId, Attempt>, answers: seq<Answer>)

  const INIT := State(Database(0, map[], map[], []), map[], {}, map[], [])

  datatype ClientStep =
    | Abandon | SendLock | ReceiveLock | Find | DeleteExpired | Claim | Handle(outcome: Option<Response>)
    | RejectResponse | Complete | FinalCheck | SendCommit | ReceiveCommit | Fail | Rollback
    | LoseRollback(invalidates: bool) | Release | ReceiveRelease | LoseRelease

  datatype ServerStep = GrantLock(error: bool) | DoCommit(ok: bool) | DropLock | Die

  datatype Event =
    | Arrive(a: AttemptId, scope: Scope, fingerprint: Digest, x: SessionId)
    | Client(a: AttemptId, does: ClientStep)
    | Server(x: SessionId, serves: ServerStep)
    | Tick(elapsed: nat)
    | Purge(scopes: set<Scope>)

  // ---------- one attempt and its session

  function Failed(t: Attempt, cause: Cause): Attempt {
    t.(phase := Failing, cause := Some(cause))
  }

  /** The row a statement of the session sees: its own writes over the committed table. */
  function Visible(table: map<Scope, Record>, w: Writes, c: Scope): Option<Record> {
    if c in w.rows then w.rows[c] else if c in table then Some(table[c]) else None
  }

  function Put(w: Writes, c: Scope, row: Option<Record>): Writes {
    w.(rows := w.rows[c := row])
  }

  /** The session can execute a statement: it lives and no earlier statement is unanswered. */
  predicate Online(y: Session) {
    y.alive && y.request.NoRequest?
  }

  predicate InTransaction(p: Phase) {
    p in {Pinned, AwaitLock, Locked, Reclaim, Claimable, Claimed, Prepared, Ready, Checked, AwaitCommit}
  }

  /** The condition under which `release` gives the connection up instead of unlocking. */
  predicate MustInvalidate(t: Attempt) {
    t.uncertain || t.invalidated || t.inTxn
  }

  /** `release` goes on to RELEASE_LOCK. */
  predicate MustUnlock(t: Attempt) {
    t.locked && !MustInvalidate(t)
  }

  predicate CanAct(t: Attempt, y: Session, step: ClientStep) {
    match step
    case Abandon => true
    case SendLock => t.phase.Pinned? && Online(y) && !t.abandoned
    case ReceiveLock => t.phase.AwaitLock? && y.reply.LockReply?
    case Find => t.phase.Locked? && Online(y) && !t.abandoned
    case DeleteExpired => t.phase.Reclaim? && Online(y)
    case Claim => t.phase.Claimable? && Online(y)
    case Handle(_) => t.phase.Claimed? && Online(y)
    case RejectResponse => t.phase.Prepared? && Online(y) && t.response.Some? && t.response.value.status >= 400
    case Complete =>
      t.phase.Prepared? && Online(y) && t.response.Some? && t.response.value.status < 400 && !t.abandoned
    case FinalCheck => t.phase.Ready? && !t.abandoned
    case SendCommit => t.phase.Checked? && Online(y)
    case ReceiveCommit => t.phase.AwaitCommit? && y.reply.CommitReply?
    case Fail => InTransaction(t.phase)
    case Rollback => t.phase.Failing? && Online(y)
    case LoseRollback(_) => t.phase.Failing?
    case Release => t.phase.Settled? && (MustUnlock(t) ==> Online(y))
    case ReceiveRelease => t.phase.AwaitRelease? && y.reply.ReleaseReply?
    case LoseRelease => t.phase.AwaitRelease? || (t.phase.Settled? && MustUnlock(t))
  }

  function ReceiveLockAct(t: Attempt, acquired: LockResult): Attempt {
    t.(phase := if acquired.One? then Locked else Failing,
       cause := if acquired.One? then t.cause else if acquired.Zero? then Some(Busy) else Some(LockUncertain),
       uncertain := acquired.Null?, locked := acquired.One?)
  }

  datatype Verdict = Insert | Recycle | Replay(response: Response) | Refuse(cause: Cause)

  /** `begin` between the lock and the claim: replay, refuse, reclaim or go on. */
  function Judge(cfg: Config, fingerprint: Digest, found: Option<Record>, now: nat): Verdict {
    match found
    case None => Insert
    case Some(r) =>
      if !r.state.Completed? then Refuse(UnexpectedState)
      else if !Unexpired(r, now) then Recycle
      else if r.fingerprint != fingerprint then Refuse(Conflict)
      else if r.status.None? || r.body.None? then Refuse(Incomplete)
      else if !Storable(cfg, Response(r.status.value, r.body.value), REPLAY_LIMIT) then Refuse(InvalidReplay)
      else Replay(Response(r.status.value, r.body.value))
  }

  function FindAct(t: Attempt, v: Verdict, version: nat): Attempt {
    t.(phase := match v case Insert => Claimable case Recycle => Reclaim case Replay(_) => Ready case Refuse(_) => Failing,
       cause := if v.Refuse? then Some(v.cause) else t.cause,
       response := if v.Replay? then Some(v.response) else t.response,
       version := if v.Replay? then version else t.version)
  }

  function DeleteExpiredAct(db: Database, t: Attempt, w: Writes): Writes {
    var found := Visible(db.table, w, t.scope);
    if found.Some? && Reclaimable(found.value, db.clock) then Put(w, t.scope, None) else w
  }

  /** The insertion of a processing claim; a visible row with the same key makes it fail. */
  function ClaimAct(t: Attempt, duplicate: bool): Attempt {
    t.(claimed := !duplicate,
       phase := if duplicate || t.abandoned then Failing else Claimed,
       cause := if duplicate then Some(DuplicateClaim) else if t.abandoned then Some(Expired) else t.cause)
  }

  function ClaimWrites(t: Attempt, w: Writes, duplicate: bool): Writes {
    if duplicate then w else Put(w, t.scope, Some(NewClaim(t.fingerprint)))
  }

  function HandleAct(t: Attempt, outcome: Option<Response>): Attempt {
    t.(phase := if outcome.Some? then Prepared else Failing,
       cause := if outcome.Some? then t.cause else Some(HandlerRaised), response := outcome)
  }

  /** Why the prepared response cannot be stored, if it cannot. */
  function Objection(cfg: Config, response: Response, found: Option<Record>): Option<Cause> {
    if !Storable(cfg, response, cfg.maxBytes) then Some(InvalidResponse)
    else if found.None? || !found.value.state.Processing? then Some(NotProcessing)
    else None
  }

  function CompleteAct(t: Attempt, objection: Option<Cause>): Attempt {
    t.(phase := if objection.Some? then Failing else Ready, cause := objection)
  }

  function CompleteWrites(t: Attempt, w: Writes, found: Option<Record>, now: nat): Writes
    requires t.response.Some?
  {
    if found.Some? then Put(w, t.scope, Some(StoredClaim(found.value, t.response.value, now))) else w
  }

  function ReceiveCommitAct(t: Attempt, ok: bool, version: nat): Attempt {
    t.(phase := if ok then Settled else Failing, inTxn := !ok,
       cause := if ok then t.cause else Some(CommitFailed),
       version := if ok && t.claimed then version else t.version)
  }

  /** An acknowledged ROLLBACK. */
  function RollbackAct(t: Attempt, y: Session): (Attempt, Session) {
    (t.(phase := Settled, inTxn := false), y.(writes := NOTHING, reply := NoReply))
  }

  /** The connection object is thrown away; the server session lives on until it notices. */
  function Discard(t: Attempt, y: Session): (Attempt, Session) {
    (t.(phase := Done, invalidated := true), y.(lease := None))
  }

  /**
   `release`: give an unclean connection up, unlock a locked one, and otherwise close it, which
   returns it to the pool unless the attempt failed.
   */
  function ReleaseAct(t: Attempt, y: Session): (Attempt, Session) {
    var unlock := MustUnlock(t);
    (t.(phase := if unlock then AwaitRelease else Done,
        invalidated := t.invalidated || MustInvalidate(t) || (!unlock && t.cause.Some?),
        delivered := !unlock && t.cause.None?),
     y.(request := if unlock then ReleaseLock(t.scope) else y.request,
        reply := if unlock || MustInvalidate(t) then y.reply else NoReply,
        lease := if unlock then y.lease else None))
  }

  /** A confirmed unlock after a success returns the connection; anything else throws it away. */
  function ReceiveReleaseAct(t: Attempt, y: Session, released: bool): (Attempt, Session) {
    var clean := released && t.cause.None?;
    (t.(phase := Done, invalidated := !clean, delivered := clean), y.(reply := NoReply, lease := None))
  }

  /** One step of the attempt between two awaits, as a function of what it and its session know. */
  function Act(cfg: Config, db: Database, t: Attempt, y: Session, step: ClientStep): (Attempt, Session)
    requires CanAct(t, y, step)
  {
    match step
    case Abandon => (t.(abandoned := true), y)
    case SendLock => (t.(phase := AwaitLock, uncertain := true), y.(request := GetLock(t.scope)))
    case ReceiveLock => (ReceiveLockAct(t, y.reply.acquired), y.(reply := NoReply))
    case Find =>
      (FindAct(t, Judge(cfg, t.fingerprint, Visible(db.table, y.writes, t.scope), db.clock), |db.history|), y)
    case DeleteExpired => (t.(phase := Claimable), y.(writes := DeleteExpiredAct(db, t, y.writes)))
    case Claim =>
      var duplicate := Visible(db.table, y.writes, t.scope).Some?;
      (ClaimAct(t, duplicate), y.(writes := ClaimWrites(t, y.writes, duplicate)))
    case Handle(outcome) => (HandleAct(t, outcome), y.(writes := y.writes.(mutation := Some(t.scope))))
    case RejectResponse => RollbackAct(t, y)
    case Complete =>
      var found := Visible(db.table, y.writes, t.scope);
      var objection := Objection(cfg, t.response.value, found);
      (CompleteAct(t, objection),
       y.(writes := if objection.Some? then y.writes else CompleteWrites(t, y.writes, found, db.clock)))
    case FinalCheck => (t.(phase := Checked), y)
    case SendCommit => (t.(phase := AwaitCommit), y.(request := Commit))
    case ReceiveCommit => (ReceiveCommitAct(t, y.reply.ok, y.reply.version), y.(reply := NoReply))
    case Fail => (Failed(t, Interrupted), y)
    case Rollback => RollbackAct(t, y)
    case LoseRollback(invalidates) => (t.(phase := Settled, invalidated := t.invalidated || invalidates), y)
    case Release => ReleaseAct(t, y)
    case ReceiveRelease => ReceiveReleaseAct(t, y, y.reply.released)
    case LoseRelease => Discard(t, y)
  }

  // ---------- one session and the database

  /** The table after a write set is applied to it. */
  function Apply(table: map<Scope, Record>, rows: map<Scope, Option<Record>>): map<Scope, Record> {
    map c | c in table.Keys + rows.Keys && (c in rows ==> rows[c].Some?) :: if c in rows then rows[c].value else table[c]
  }

  predicate CanServe(y: Session, step: ServerStep) {
    match step
    case GrantLock(_) => y.alive && y.request.GetLock?
    case DoCommit(_) => y.alive && y.request.Commit?
    case DropLock => y.alive && y.request.ReleaseLock?
    case Die => true
  }

  function GrantLockServe(db: Database, x: SessionId, y: Session, error: bool): (Database, Session)
    requires y.request.GetLock?
  {
    var c := y.request.name;
    var granted := !error && (c !in db.locks || db.locks[c] == x);
    (if granted then db.(locks := db.locks[c := x]) else db,
     y.(request := NoRequest, reply := LockReply(if error then Null else if granted then One else Zero)))
  }

  function DoCommitServe(db: Database, y: Session, ok: bool): (Database, Session) {
    (if ok then db.(table := Apply(db.table, y.writes.rows), history := db.history + [Committed(db.clock, y.writes)])
     else db,
     y.(writes := NOTHING, request := NoRequest, reply := CommitReply(ok, |db.history| + 1)))
  }

  function DropLockServe(db: Database, x: SessionId, y: Session): (Database, Session)
    requires y.request.ReleaseLock?
  {
    var c := y.request.name;
    var held := c in db.locks && db.locks[c] == x;
    (if held then db.(locks := db.locks - {c}) else db,
     y.(request := NoRequest, reply := ReleaseReply(held)))
  }

  /** The server loses the session: it rolls back and frees the locks; replies already sent may still be read. */
  function DieServe(db: Database, x: SessionId, y: Session): (Database, Session) {
    (db.(locks := map c | c in db.locks && db.locks[c] != x :: db.locks[c]),
     y.(alive := false, writes := NOTHING, request := NoRequest))
  }

  function Serve(db: Database, x: SessionId, y: Session, step: ServerStep): (Database, Session)
    requires CanServe(y, step)
  {
    match step
    case GrantLock(error) => GrantLockServe(db, x, y, error)
    case DoCommit(ok) => DoCommitServe(db, y, ok)
    case DropLock => DropLockServe(db, x, y)
    case Die => DieServe(db, x, y)
  }

  // ---------- the whole system

  predicate Enabled(cfg: Config, s: State, e: Event) {
    match e
    case Arrive(a, _, _, x) => a !in s.attempts && (x in s.pool || x !in s.sessions)
    case Client(a, step) =>
      a in s.attempts && s.attempts[a].session in s.sessions
      && CanAct(s.attempts[a], s.sessions[s.attempts[a].session], step)
    case Server(x, step) => x in s.sessions && CanServe(s.sessions[x], step)
    case Tick(_) => true
    case Purge(scopes) => forall c | c in scopes :: c in s.db.table && Reclaimable(s.db.table[c], s.db.clock)
  }

  /** A connection is taken from the pool, or opened, and pinned to the attempt. */
  function DoArrive(s: State, a: AttemptId, scope: Scope, fingerprint: Digest, x: SessionId): State {
    var t := Attempt(scope, fingerprint, x, Pinned, false, false, false, true, false, false, None, None, 0, false);
    var y := if x in s.sessions then s.sessions[x] else Session(true, NOTHING, NoRequest, NoReply, None);
    s.(attempts := s.attempts[a := t], sessions := s.sessions[x := y.(lease := Some(a))], pool := s.pool - {x})
  }

  /** The attempt gave its connection up and did not invalidate it: the pool has it back. */
  predicate Returned(t: Attempt, t': Attempt) {
    !t.phase.Done? && t'.phase.Done? && !t'.invalidated
  }

  function Answers(t: Attempt, t': Attempt): seq<Answer> {
    if t'.delivered && !t.delivered && t'.response.Some? && t'.response.value.status < 400
    then [Answer(t'.scope, t'.fingerprint, t'.response.value, t'.version)] else []
  }

  function DoClient(cfg: Config, s: State, a: AttemptId, step: ClientStep): State
    requires Enabled(cfg, s, Client(a, step))
  {
    var t := s.attempts[a];
    var (t', y') := Act(cfg, s.db, t, s.sessions[t.session], step);
    s.(attempts := s.attempts[a := t'], sessions := s.sessions[t.session := y'],
       pool := if Returned(t, t') then s.pool + {t.session} else s.pool,
       answers := s.answers + Answers(t, t'))
  }

  function DoServer(cfg: Config, s: State, x: SessionId, step: ServerStep): State
    requires Enabled(cfg, s, Server(x, step))
  {
    var (db', y') := Serve(s.db, x, s.sessions[x], step);
    s.(db := db', sessions := s.sessions[x := y'])
  }

  function DoTick(s: State, elapsed: nat): State {
    s.(db := s.db.(clock := s.db.clock + elapsed))
  }

  /** A purge in a transaction of its own deletes some expired claims. */
  function DoPurge(s: State, scopes: set<Scope>): State {
    s.(db := s.db.(table := s.db.table - scopes))
  }

  function Next(cfg: Config, s: State, e: Event): State
    requires Enabled(cfg, s, e)
  {
    match e
    case Arrive(a, scope, fingerprint, x) => DoArrive(s, a, scope, fingerprint, x)
    case Client(a, step) => DoClient(cfg, s, a, step)
    case Server(x, step) => DoServer(cfg, s, x, step)
    case Tick(elapsed) => DoTick(s, elapsed)
    case Purge(scopes) => DoPurge(s, scopes)
  }

  /** The interleaving `events`, started in `s`, is possible and ends in `s'`. */
  ghost predicate Leads(cfg: Config, s: State, events: seq<Event>, s': State)
    decreases |events|
  {
    if events == [] then s' == s
    else Enabled(cfg, s, events[0]) && Leads(cfg, Next(cfg, s, events[0]), events[1..], s')
  }
}
