/**
 The objects behind one attempt: the claims as its transaction changes them, and the execution that
 begins, completes and releases it. Each method does, without interruption, what the steps of the
 transition system do.
 */
module IdempotencyExecution {
  import opened Options
  import opened Idempotency

  /** The claim rows within one transaction: the committed ones under its own uncommitted ones. */
  class ClaimRows {
    var table: map<Scope, Record>
    var writes: Writes

    constructor (table: map<Scope, Record>)
      ensures this.table == table && writes == Writes(None, map[])
    {
      this.table := table;
      writes := NOTHING;
    }

    /** The row, and whether it has not expired; one without an expiry counts as expired. */
    method Find(c: Scope, now: nat) returns (found: Option<Record>, unexpired: bool)
      ensures found == if c in writes.rows then writes.rows[c] else if c in table then Some(table[c]) else None
      ensures found == Visible(table, writes, c)
      ensures unexpired <==> found.Some? && found.value.expiresAt.Some? && found.value.expiresAt.value > now
    {
      found := if c in writes.rows then writes.rows[c] else if c in table then Some(table[c]) else None;
      unexpired := found.Some? && Unexpired(found.value, now);
    }

    /** Only the row of this scope changed, to `row`. */
    ghost predicate Changed(before: Writes, c: Scope, row: Option<Record>)
      reads this
    {
      writes.mutation == before.mutation && writes.rows == before.rows[c := row]
    }

    method Claim(c: Scope, claim: Record) returns (inserted: bool)
      modifies this`writes
      ensures inserted <==> Visible(table, old(writes), c).None?
      ensures if inserted then Changed(old(writes), c, Some(claim)) else writes == old(writes)
    {
      var found, _ := Find(c, 0);
      if found.Some? {
        return false;
      }
      writes := Put(writes, c, Some(claim));
      return true;
    }

    method DeleteExpired(c: Scope, now: nat)
      modifies this`writes
      ensures var found := Visible(table, old(writes), c);
        if found.Some? && found.value.state == Completed && found.value.expiresAt.Some? && found.value.expiresAt.value <= now
        then Changed(old(writes), c, None) else writes == old(writes)
    {
      var found, _ := Find(c, now);
      if found.Some? && Reclaimable(found.value, now) {
        writes := Put(writes, c, None);
      }
    }

    /** A processing row gets the response, the time and an expiry a day later; nothing else of it changes. */
    method Complete(c: Scope, r: Response, now: nat) returns (updated: bool)
      modifies this`writes
      ensures var found := Visible(table, old(writes), c);
        && (updated <==> found.Some? && found.value.state == Processing)
        && if updated
           then Changed(old(writes), c, Some(Record(
             found.value.fingerprint, Completed, Some(r.status), Some(r.body), Some(now), Some(now + 86_400_000))))
           else writes == old(writes)
    {
      var found, _ := Find(c, now);
      if found.None? || !found.value.state.Processing? {
        return false;
      }
      writes := Put(writes, c, Some(StoredClaim(found.value, r, now)));
      return true;
    }
  }

  /** `validate_response`: a success within the limit, with no body or with JSON as its status asks. */
  method ValidateResponse(cfg: Config, r: Response, limit: nat) returns (valid: bool)
    ensures valid <==>
      && 200 <= r.status < 300 && |r.body| <= limit
      && (r.status == 204 || r.status == 205 ==> r.body == [])
      && (r.status != 204 && r.status != 205 ==> cfg.isJson(r.body))
    ensures valid == Storable(cfg, r, limit)
  {
    if r.status < 200 || r.status >= 300 || |r.body| > limit {
      return false;
    }
    return if r.status in {204, 205} then r.body == [] else cfg.isJson(r.body);
  }

  datatype Outcome = Proceed | Replayed(response: Response) | Raised(cause: Cause)

  // ---------- the steps of one call, one after the other

  /** SELECT GET_LOCK, with the answer that arrived. */
  function LockSteps(cfg: Config, db: Database, t: Attempt, y: Session, acquired: LockResult): (Attempt, Session)
    requires CanAct(t, y, SendLock)
  {
    var (t1, y1) := Act(cfg, db, t, y, SendLock);
    Act(cfg, db, t1, y1.(request := NoRequest, reply := LockReply(acquired)), ReceiveLock)
  }

  /** The activity check that finds the request abandoned, if one does. */
  datatype Late = Never | AtStart | AfterLock | AfterClaim

  /** An activity check between two statements raises. */
  function InterruptSteps(cfg: Config, db: Database, t: Attempt, y: Session): (Attempt, Session)
    requires InTransaction(t.phase)
  {
    var (t1, y1) := Act(cfg, db, t, y, Abandon);
    Act(cfg, db, t1, y1, Fail)
  }

  /** From a claim that has expired or is missing; with `late` the request is abandoned before the new one is in place. */
  function InsertSteps(cfg: Config, db: Database, t: Attempt, y: Session, late: bool): (Attempt, Session)
    requires (t.phase.Reclaim? || t.phase.Claimable?) && Online(y)
  {
    var (t1, y1) := if t.phase.Reclaim? then Act(cfg, db, t, y, DeleteExpired) else (t, y);
    var (t2, y2) := if late then Act(cfg, db, t1, y1, Abandon) else (t1, y1);
    Act(cfg, db, t2, y2, Claim)
  }

  function ClaimSteps(cfg: Config, db: Database, t: Attempt, y: Session, late: bool): (Attempt, Session)
    requires t.phase.Locked? && Online(y) && !t.abandoned
  {
    var (t1, y1) := Act(cfg, db, t, y, Find);
    if t1.phase.Reclaim? || t1.phase.Claimable? then InsertSteps(cfg, db, t1, y1, late) else (t1, y1)
  }

  /** The steps leave a processing claim without response or expiry as the only change, if they claim. */
  lemma InsertStepsWrite(cfg: Config, db: Database, t: Attempt, y: Session, late: bool)
    requires (t.phase.Reclaim? || t.phase.Claimable?) && Online(y) && !t.abandoned
    ensures var (t', y') := InsertSteps(cfg, db, t, y, late);
      && (t'.claimed ==>
            && y'.writes.mutation == y.writes.mutation
            && y'.writes.rows == y.writes.rows[t.scope := Some(Record(t.fingerprint, Processing, None, None, None, None))])
      && (t'.phase.Claimed? <==> t'.claimed && !late)
  {
  }

  /** `begin` from its first check to its return. */
  function BeginSteps(cfg: Config, db: Database, t: Attempt, y: Session, acquired: LockResult, late: Late): (Attempt, Session)
    requires CanAct(t, y, SendLock)
  {
    if late.AtStart? then InterruptSteps(cfg, db, t, y)
    else
      var (t1, y1) := LockSteps(cfg, db, t, y, acquired);
      if !t1.phase.Locked? then (t1, y1)
      else if late.AfterLock? then InterruptSteps(cfg, db, t1, y1)
      else ClaimSteps(cfg, db, t1, y1, late.AfterClaim?)
  }

  /** `release`; no `answer` means that RELEASE_LOCK raised. */
  function ReleaseSteps(t: Attempt, y: Session, answer: Option<bool>): (Attempt, Session) {
    var (t1, y1) := ReleaseAct(t, y);
    if !MustUnlock(t) then (t1, y1)
    else if answer.Some? then ReceiveReleaseAct(t1, y1, answer.value)
    else Discard(t1, y1)
  }

  function OutcomeOf(t: Attempt): Outcome {
    if t.phase.Failing? && t.cause.Some? then Raised(t.cause.value)
    else if t.phase.Ready? && t.response.Some? then Replayed(t.response.value)
    else Proceed
  }

  // ---------- one execution

  class Execution {
    const scope: Scope
    const fingerprint: Digest
    var locked: bool
    var uncertain: bool
    var claimed: bool
    /** Of the pinned connection. */
    var invalidated: bool
    var inTransaction: bool

    constructor (scope: Scope, fingerprint: Digest)
      ensures this.scope == scope && this.fingerprint == fingerprint
      ensures !locked && !uncertain && !claimed && !invalidated && inTransaction
    {
      this.scope, this.fingerprint := scope, fingerprint;
      locked, uncertain, claimed, invalidated, inTransaction := false, false, false, false, true;
    }

    /** The attempt of the transition system has these fields. */
    ghost predicate Is(t: Attempt)
      reads this
    {
      && t.scope == scope && t.fingerprint == fingerprint && t.locked == locked && t.uncertain == uncertain
      && t.claimed == claimed && t.invalidated == invalidated && t.inTxn == inTransaction
    }

    /** Locks, as far as the answer `acquired` allows. */
    method Lock(acquired: LockResult) returns (error: Option<Cause>)
      modifies this`uncertain, this`locked
      ensures uncertain == acquired.Null? && locked == (old(locked) || acquired.One?)
      ensures error == match acquired case One => None case Zero => Some(Busy) case Null => Some(LockUncertain)
    {
      uncertain := true;
      if acquired.Null? {
        return Some(LockUncertain);
      }
      uncertain := false;
      if acquired.Zero? {
        return Some(Busy);
      }
      locked := true;
      return None;
    }

    /** What the record that is found, if any, says about the request. */
    method ReadClaim(cfg: Config, rows: ClaimRows, now: nat) returns (v: Verdict)
      ensures v == Judge(cfg, fingerprint, Visible(rows.table, rows.writes, scope), now)
      ensures var found := Visible(rows.table, rows.writes, scope);
        && (v == Insert <==> found == None)
        && (found.Some? ==>
              var r := found.value;
              var unexpired := r.expiresAt.Some? && r.expiresAt.value > now;
              && (v == Refuse(UnexpectedState) <==> r.state != Completed)
              && (v == Recycle <==> r.state == Completed && !unexpired)
              && (v == Refuse(Conflict) <==> r.state == Completed && unexpired && r.fingerprint != fingerprint)
              && (v.Replay? ==> r.state == Completed && unexpired && r.fingerprint == fingerprint
                                && r.status == Some(v.response.status) && r.body == Some(v.response.body)
                                && 200 <= v.response.status < 300 && |v.response.body| <= 65536)
              && (v == Refuse(Incomplete) <==>
                    r.state == Completed && unexpired && r.fingerprint == fingerprint && (r.status == None || r.body == None)))
    {
      var found, unexpired := rows.Find(scope, now);
      if found == None {
        return Insert;
      }
      var record := found.value;
      if !record.state.Completed? {
        return Refuse(UnexpectedState);
      }
      if !unexpired {
        return Recycle;
      }
      if record.fingerprint != fingerprint {
        return Refuse(Conflict);
      }
      if record.status.None? || record.body.None? {
        return Refuse(Incomplete);
      }
      var replay := Response(record.status.value, record.body.value);
      var valid := ValidateResponse(cfg, replay, REPLAY_LIMIT);
      return if valid then Replay(replay) else Refuse(InvalidReplay);
    }

    /** Puts a claim in place of one that has expired or is missing. */
    method InsertClaim(cfg: Config, rows: ClaimRows, recycle: bool, now: nat, late: bool) returns (o: Outcome)
      requires !claimed
      modifies rows`writes, this`claimed
      ensures forall db: Database, t: Attempt, y: Session ::
        old(Is(t)) && t.phase == (if recycle then Reclaim else Claimable) && Online(y) && !t.abandoned && t.cause == None
        && y.writes == old(rows.writes) && db.table == rows.table && db.clock == now ==>
        var (t', y') := InsertSteps(cfg, db, t, y, late); Is(t') && y'.writes == rows.writes && o == OutcomeOf(t')
    {
      if recycle {
        rows.DeleteExpired(scope, now);
      }
      claimed := rows.Claim(scope, NewClaim(fingerprint));
      if !claimed {
        return Raised(DuplicateClaim);
      }
      return if late then Raised(Expired) else Proceed;
    }

    /** Replays or refuses what a record that was found says, or claims the scope. */
    method ReplayOrClaim(cfg: Config, rows: ClaimRows, now: nat, late: bool) returns (o: Outcome)
      requires !claimed
      modifies rows`writes, this`claimed
      ensures forall db: Database, t: Attempt, y: Session ::
        old(Is(t)) && t.phase.Locked? && Online(y) && !t.abandoned && t.cause == None
        && y.writes == old(rows.writes) && db.table == rows.table && db.clock == now ==>
        var (t', y') := ClaimSteps(cfg, db, t, y, late); Is(t') && y'.writes == rows.writes && o == OutcomeOf(t')
    {
      var v := ReadClaim(cfg, rows, now);
      if v.Refuse? {
        return Raised(v.cause);
      }
      if v.Replay? {
        return Replayed(v.response);
      }
      o := InsertClaim(cfg, rows, v.Recycle?, now, late);
    }

    /**
     `begin`, with its activity checks: the steps of the transition system, in order. A check between
     two statements that raises is an interruption there.
     */
    method Begin(cfg: Config, rows: ClaimRows, acquired: LockResult, now: nat, late: Late) returns (o: Outcome)
      requires !locked && !claimed
      modifies rows`writes, this`locked, this`uncertain, this`claimed
      ensures forall db: Database, t: Attempt, y: Session ::
        old(Is(t)) && CanAct(t, y, SendLock) && t.cause == None
        && y.writes == old(rows.writes) && db.table == rows.table && db.clock == now ==>
        var (t', y') := BeginSteps(cfg, db, t, y, acquired, late); Is(t') && y'.writes == rows.writes && o == OutcomeOf(t')
    {
      if late.AtStart? {
        return Raised(Interrupted);
      }
      var error := Lock(acquired);
      if error.Some? {
        return Raised(error.value);
      }
      if late.AfterLock? {
        return Raised(Interrupted);
      }
      o := ReplayOrClaim(cfg, rows, now, late.AfterClaim?);
    }

    /** `complete`: stores the prepared response of a claim, if the request is active. */
    method Complete(cfg: Config, rows: ClaimRows, response: Response, active: bool, now: nat) returns (error: Option<Cause>)
      modifies rows`writes
      ensures var found := Visible(rows.table, old(rows.writes), scope);
        && error == (if !claimed then None else if !active then Some(Expired) else Objection(cfg, response, found))
        && if claimed && error.None?
           then && found.Some? && found.value.state == Processing && 200 <= response.status < 300 && |response.body| <= cfg.maxBytes
                && rows.Changed(old(rows.writes), scope, Some(Record(
                     found.value.fingerprint, Completed, Some(response.status), Some(response.body), Some(now), Some(now + 86_400_000))))
           else rows.writes == old(rows.writes)
      ensures error == Some(Expired) <==> claimed && !active
      ensures error == Some(InvalidResponse) <==> claimed && active && !Storable(cfg, response, cfg.maxBytes)
    {
      if !claimed {
        return None;
      }
      if !active {
        return Some(Expired);
      }
      var valid := ValidateResponse(cfg, response, cfg.maxBytes);
      if !valid {
        return Some(InvalidResponse);
      }
      var updated := rows.Complete(scope, response, now);
      return if updated then None else Some(NotProcessing);
    }

    /** `release`: what becomes of the connection, and whether the caller sees an exception. */
    method Release(failed: bool, answer: Option<bool>) returns (raised: bool)
      modifies this`invalidated
      ensures forall t: Attempt, y: Session :: old(Is(t)) && t.cause.Some? == failed ==>
        var t' := ReleaseSteps(t, y, answer).0; t'.invalidated == invalidated && t'.delivered == (!failed && !raised)
      ensures var unclean := uncertain || old(invalidated) || inTransaction;
        && (invalidated <==> failed || unclean || (locked && answer != Some(true)))
        && (raised <==> !failed && !unclean && locked && answer != Some(true))
    {
      raised := false;
      if uncertain || invalidated || inTransaction {
        invalidated := true;
      } else if locked && answer != Some(true) {
        invalidated := true;
        raised := !failed;
      }
      if failed && !invalidated {
        invalidated := true;
      }
    }
  }
}
