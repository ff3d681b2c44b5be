/** An abandoned request and the commit of its mutation. */
module IdempotencyAbandonment {
  import opened Idempotency

  /** The last activity check passed and the outcome of COMMIT is not known yet. */
  predicate PastFinalCheck(p: Phase) {
    p.Checked? || p.AwaitCommit?
  }

  lemma StaysAbandoned(cfg: Config, db: Database, t: Attempt, y: Session, step: ClientStep)
    requires CanAct(t, y, step) && t.abandoned
    ensures Act(cfg, db, t, y, step).0.abandoned
  {
    match step
    case Find =>
    case Claim =>
    case Complete =>
    case _ =>
  }

  lemma StaysUnchecked(cfg: Config, db: Database, t: Attempt, y: Session, step: ClientStep)
    requires CanAct(t, y, step) && t.abandoned && !PastFinalCheck(t.phase)
    ensures !PastFinalCheck(Act(cfg, db, t, y, step).0.phase)
  {
    match step
    case FinalCheck =>
    case SendCommit =>
    case Find =>
    case Claim => assert !PastFinalCheck(ClaimAct(t, Visible(db.table, y.writes, t.scope).Some?).phase);
    case Complete =>
    case _ =>
  }

  /** Once abandoned before its last activity check, an attempt never begins to commit. */
  lemma {:induction false} AbandonedNeverCommits(cfg: Config, s: State, events: seq<Event>, s': State, a: AttemptId)
    requires Leads(cfg, s, events, s')
    requires a in s.attempts && s.attempts[a].abandoned && !PastFinalCheck(s.attempts[a].phase)
    ensures a in s'.attempts && s'.attempts[a].abandoned && !PastFinalCheck(s'.attempts[a].phase)
    decreases |events|
  {
    if events != [] {
      var e := events[0];
      if e.Client? && e.a == a {
        var t := s.attempts[a];
        StaysAbandoned(cfg, s.db, t, s.sessions[t.session], e.does);
        StaysUnchecked(cfg, s.db, t, s.sessions[t.session], e.does);
      }
      AbandonedNeverCommits(cfg, Next(cfg, s, e), events[1..], s', a);
    }
  }
}
