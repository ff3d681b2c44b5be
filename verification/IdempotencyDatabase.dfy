/** What the database does for a session, spelled out: locks, commits, deaths and purges. */
module IdempotencyDatabase {
  import opened Options
  import opened Idempotency

  /** GET_LOCK takes a free lock or one the session has, fails on another session's, and touches no other lock. */
  lemma LockGranted(cfg: Config, s: State, x: SessionId, error: bool)
    requires Enabled(cfg, s, Server(x, GrantLock(error)))
    ensures var c := s.sessions[x].request.name;
      var free := c !in s.db.locks || s.db.locks[c] == x;
      var s' := Next(cfg, s, Server(x, GrantLock(error)));
      && s'.sessions[x].reply == LockReply(if error then Null else if free then One else Zero)
      && (c in s'.db.locks && s'.db.locks[c] == x <==> (free && !error) || (c in s.db.locks && s.db.locks[c] == x))
      && (forall d | d != c || error || !free :: (d in s'.db.locks <==> d in s.db.locks) && (d in s.db.locks ==> s'.db.locks[d] == s.db.locks[d]))
      && s'.db.table == s.db.table && s'.db.history == s.db.history && s'.sessions[x].writes == s.sessions[x].writes
  {
  }

  /** RELEASE_LOCK frees the session's own lock and says so; it never frees another's. */
  lemma LockDropped(cfg: Config, s: State, x: SessionId)
    requires Enabled(cfg, s, Server(x, DropLock))
    ensures var c := s.sessions[x].request.name;
      var mine := c in s.db.locks && s.db.locks[c] == x;
      var s' := Next(cfg, s, Server(x, DropLock));
      && s'.sessions[x].reply == ReleaseReply(mine)
      && (forall d :: d in s'.db.locks <==> d in s.db.locks && !(mine && d == c))
      && (forall d | d in s'.db.locks :: s'.db.locks[d] == s.db.locks[d])
      && s'.db.table == s.db.table && s'.db.history == s.db.history
  {
  }

  /** COMMIT makes the session's rows the committed ones, all of them and no others, in one step; a failed one changes nothing. */
  lemma CommitApplied(cfg: Config, s: State, x: SessionId, ok: bool)
    requires Enabled(cfg, s, Server(x, DoCommit(ok)))
    ensures var rows := s.sessions[x].writes.rows;
      var s' := Next(cfg, s, Server(x, DoCommit(ok)));
      && (!ok ==> s'.db == s.db)
      && (ok ==> s'.db.history == s.db.history + [Committed(s.db.clock, s.sessions[x].writes)] && s'.db.locks == s.db.locks)
      && (ok ==> forall d :: d in s'.db.table <==> if d in rows then rows[d].Some? else d in s.db.table)
      && (ok ==> forall d | d in s'.db.table :: s'.db.table[d] == if d in rows then rows[d].value else s.db.table[d])
      && s'.sessions[x].writes == NOTHING && s'.sessions[x].reply == CommitReply(ok, |s.db.history| + 1)
  {
  }

  /** A session that dies commits nothing and frees exactly its own locks. */
  lemma DeathRollsBack(cfg: Config, s: State, x: SessionId)
    requires Enabled(cfg, s, Server(x, Die))
    ensures var s' := Next(cfg, s, Server(x, Die));
      && s'.db.table == s.db.table && s'.db.history == s.db.history
      && (forall d :: d in s'.db.locks <==> d in s.db.locks && s.db.locks[d] != x)
      && (forall d | d in s'.db.locks :: s'.db.locks[d] == s.db.locks[d])
      && !s'.sessions[x].alive && s'.sessions[x].writes == NOTHING && s'.sessions[x].request.NoRequest?
  {
  }

  /** A purge deletes only completed claims whose expiry has come, and may delete any of them. */
  lemma PurgeDeletesExpired(cfg: Config, s: State, scopes: set<Scope>)
    ensures Enabled(cfg, s, Purge(scopes)) <==> forall c | c in scopes ::
      c in s.db.table && s.db.table[c].state == Completed && s.db.table[c].expiresAt.Some? && s.db.table[c].expiresAt.value <= s.db.clock
    ensures Enabled(cfg, s, Purge(scopes)) ==>
      var s' := Next(cfg, s, Purge(scopes));
      && (forall d :: d in s'.db.table <==> d in s.db.table && d !in scopes)
      && (forall d | d in s'.db.table :: s'.db.table[d] == s.db.table[d])
      && s' == s.(db := s'.db) && s'.db.history == s.db.history && s'.db.locks == s.db.locks && s'.db.clock == s.db.clock
  {
  }
}
