/**
 Optimistic versions of one item: concurrent updates, replacements and deletes, each under the row
 lock of its transaction, which may roll back or die at any point.
 */
module ItemVersions {
  import opened Options

  const MAX_VERSION := 4294967295

  datatype Row = Row(version: int, name: string, description: Option<string>, price: nat)

  /** The fields that a request sets; a replacement sets them all. */
  datatype Patch = Patch(name: Option<string>, description: Option<Option<string>>, price: Option<nat>)

  datatype Op = Update(expected: int, patch: Patch) | Delete(expected: int)

  /** Done, 404, or 409. */
  datatype Outcome = Done | NotFound | Conflict

  function Applied(r: Row, p: Patch): Row {
    Row(r.version + 1,
        if p.name.Some? then p.name.value else r.name,
        if p.description.Some? then p.description.value else r.description,
        if p.price.Some? then p.price.value else r.price)
  }

  /** The conditional statement: it changes the row it matches, or none. */
  function Execute(row: Option<Row>, op: Op): (Option<Row>, bool) {
    if row == None || row.value.version != op.expected then (row, false)
    else
      match op
      case Update(_, p) => if row.value.version < MAX_VERSION then (Some(Applied(row.value, p)), true) else (row, false)
      case Delete(_) => (None, true)
  }

  /** A service call: the row is read under its lock and checked, then the statement runs. */
  function Serve(row: Option<Row>, op: Op): (Option<Row>, Outcome) {
    if row == None then (row, NotFound)
    else if row.value.version != op.expected then (row, Conflict)
    else
      var (row', ok) := Execute(row, op);
      (row', if ok then Done else Conflict)
  }

  /** The row as one transaction sees it. */
  class ItemSession {
    var row: Option<Row>

    constructor (row: Option<Row>)
      ensures this.row == row
    {
      this.row := row;
    }

    method Change(op: Op) returns (changed: nat)
      modifies this
      ensures row == Execute(old(row), op).0 && changed == if Execute(old(row), op).1 then 1 else 0
      ensures changed == 1 <==> old(row).Some? && old(row).value.version == op.expected && (op.Delete? || op.expected < 4294967295)
      ensures changed != 1 ==> changed == 0 && row == old(row)
      ensures changed == 1 && op.Delete? ==> row == None
      ensures changed == 1 && op.Update? ==> row.Some? && row.value.version == op.expected + 1
    {
      if row == None || row.value.version != op.expected {
        return 0;
      }
      if op.Delete? {
        row := None;
        return 1;
      }
      if row.value.version >= MAX_VERSION {
        return 0;
      }
      row := Some(Applied(row.value, op.patch));
      return 1;
    }

    method Mutate(op: Op) returns (outcome: Outcome)
      modifies this
      ensures (row, outcome) == Serve(old(row), op)
      ensures outcome == NotFound <==> old(row) == None
      ensures outcome == Done <==> old(row).Some? && old(row).value.version == op.expected && (op.Delete? || op.expected < 4294967295)
      ensures outcome == Done ==> row == if op.Delete? then None else Some(Row(op.expected + 1,
        Or(op.patch.name, old(row).value.name), Or(op.patch.description, old(row).value.description), Or(op.patch.price, old(row).value.price)))
      ensures outcome != Done ==> row == old(row)
    {
      if row == None {
        return NotFound;
      }
      if row.value.version != op.expected {
        return Conflict;
      }
      var changed := Change(op);
      return if changed == 1 then Done else Conflict;
    }
  }

  // ---------- concurrent transactions

  /** What the holder of the row lock has done and not committed. */
  datatype Work = Nothing | Pending(op: Op, row: Option<Row>) | Refused

  /** `log` lists the committed mutations in the order of their commits. */
  datatype State = State(row: Option<Row>, holder: Option<nat>, work: Work, log: seq<Op>)

  datatype Event = Lock(t: nat) | Mutate(t: nat, op: Op) | Commit(t: nat) | Leave(t: nat)

  function Created(r: Row): State {
    State(Some(r.(version := 1)), None, Nothing, [])
  }

  predicate Enabled(s: State, e: Event) {
    match e
    case Lock(_) => s.holder == None
    case Mutate(t, _) => s.holder == Some(t) && s.work == Nothing
    case Commit(t) => s.holder == Some(t) && s.work.Pending?
    case Leave(t) => s.holder == Some(t)
  }

  /** A rollback and a lost connection both end as `Leave`. */
  function Next(s: State, e: Event): State
    requires Enabled(s, e)
  {
    match e
    case Lock(t) => s.(holder := Some(t), work := Nothing)
    case Mutate(_, op) =>
      var (row, outcome) := Serve(s.row, op);
      s.(work := if outcome == Done then Pending(op, row) else Refused)
    case Commit(_) => s.(row := s.work.row, holder := None, work := Nothing, log := s.log + [s.work.op])
    case Leave(_) => s.(holder := None, work := Nothing)
  }

  predicate Runs(s: State, es: seq<Event>)
    decreases |es|
  {
    es == [] || (Enabled(s, es[0]) && Runs(Next(s, es[0]), es[1..]))
  }

  function After(s: State, es: seq<Event>): State
    requires Runs(s, es)
    decreases |es|
  {
    if es == [] then s else After(Next(s, es[0]), es[1..])
  }

  /** The mutations applied one after the other, alone, to the item as created. */
  function Replay(row: Option<Row>, log: seq<Op>): Option<Row> {
    if log == [] then row else Execute(Replay(row, log[..|log| - 1]), log[|log| - 1]).0
  }

  /** Each committed mutation found the version it expected: 1, 2, 3 and so on; a delete is the last. */
  predicate InSequence(log: seq<Op>) {
    && (forall i | 0 <= i < |log| :: log[i].expected == i + 1)
    && (forall i | 0 <= i < |log| - 1 :: log[i].Update?)
    && (forall i | 0 <= i < |log| && log[i].Update? :: i + 1 < MAX_VERSION)
  }

  predicate Deleted(log: seq<Op>) {
    log != [] && log[|log| - 1].Delete?
  }

  ghost predicate Inv(r: Row, s: State) {
    && s.row == Replay(Some(r.(version := 1)), s.log)
    && InSequence(s.log)
    && (s.row == None <==> Deleted(s.log))
    && (s.row.Some? ==> s.row.value.version == 1 + |s.log|)
    && (s.work.Pending? ==> s.holder.Some? && Serve(s.row, s.work.op) == (s.work.row, Done))
  }

  lemma StepKeeps(r: Row, s: State, e: Event)
    requires Inv(r, s) && Enabled(s, e)
    ensures Inv(r, Next(s, e))
  {
    if e.Commit? {
      var log' := s.log + [s.work.op];
      assert log'[..|s.log|] == s.log;
    }
  }

  lemma {:induction false} RunKeeps(r: Row, s: State, es: seq<Event>)
    requires Inv(r, s) && Runs(s, es)
    ensures Inv(r, After(s, es))
    decreases |es|
  {
    if es != [] {
      StepKeeps(r, s, es[0]);
      RunKeeps(r, Next(s, es[0]), es[1..]);
    }
  }

  /**
   In every run the item is what its committed mutations, applied alone in the order of their commits,
   make of it; its version is one more than their number and stays within its bound.
   */
  lemma CommittedMutationsInSequence(r: Row, es: seq<Event>)
    requires Runs(Created(r), es)
    ensures var s := After(Created(r), es);
      && s.row == Replay(Some(r.(version := 1)), s.log)
      && (s.row.Some? ==> s.row.value.version == 1 + |s.log| <= MAX_VERSION)
      && (s.row == None ==> Deleted(s.log))
  {
    RunKeeps(r, Created(r), es);
  }

  /** No two committed mutations expected the same version, and none follows a delete. */
  lemma ExpectedVersionsDiffer(r: Row, es: seq<Event>, i: nat, j: nat)
    requires Runs(Created(r), es) && i < j < |After(Created(r), es).log|
    ensures var log := After(Created(r), es).log; log[i].expected < log[j].expected && log[i].Update?
  {
    RunKeeps(r, Created(r), es);
  }

  // ---------- fields

  /** What the last mutation that sets the field sets it to. */
  function LastSet<T>(log: seq<Op>, field: Patch -> Option<T>): Option<T> {
    if log == [] then None
    else
      var op := log[|log| - 1];
      if op.Update? && field(op.patch).Some? then field(op.patch) else LastSet(log[..|log| - 1], field)
  }

  function Or<T>(o: Option<T>, otherwise: T): T {
    if o.Some? then o.value else otherwise
  }

  /** A run in which every mutation succeeds leaves in each field what was set last, or what it was created with. */
  lemma {:induction false} ReplayFields(r: Row, log: seq<Op>)
    requires InSequence(log) && r.version == 1 && !Deleted(log)
    ensures Replay(Some(r), log) == Some(Row(1 + |log|,
      Or(LastSet(log, (p: Patch) => p.name), r.name),
      Or(LastSet(log, (p: Patch) => p.description), r.description),
      Or(LastSet(log, (p: Patch) => p.price), r.price)))
  {
    if log != [] {
      var before := log[..|log| - 1];
      assert forall i | 0 <= i < |before| :: before[i] == log[i];
      ReplayFields(r, before);
    }
  }

  /** In every run the stored item holds, field by field, what the last committed mutation that set the field set; nothing else is lost or changed. */
  lemma LastCommittedWins(r: Row, es: seq<Event>)
    requires Runs(Created(r), es) && After(Created(r), es).row.Some?
    ensures var s := After(Created(r), es);
      && s.row.value.name == Or(LastSet(s.log, (p: Patch) => p.name), r.name)
      && s.row.value.description == Or(LastSet(s.log, (p: Patch) => p.description), r.description)
      && s.row.value.price == Or(LastSet(s.log, (p: Patch) => p.price), r.price)
  {
    RunKeeps(r, Created(r), es);
    ReplayFields(r.(version := 1), After(Created(r), es).log);
  }

  // ---------- transactions

  /** A transaction that leaves without a commit changes nothing and frees the row. */
  lemma LeavingUndoes(s: State, t: nat)
    requires s.holder == Some(t)
    ensures Enabled(s, Leave(t))
    ensures var s' := Next(s, Leave(t)); s'.row == s.row && s'.log == s.log && s'.holder == None && forall u :: Enabled(s', Lock(u))
  {
  }

  /** On a free row a mutation that expects the current version, below the maximum unless it deletes, can run and commit. */
  lemma ExpectedMutationCommits(s: State, t: nat, op: Op)
    requires s.holder == None && s.row.Some? && s.row.value.version == op.expected && (op.Delete? || op.expected < 4294967295)
    ensures Enabled(s, Lock(t)) && Enabled(Next(s, Lock(t)), Mutate(t, op))
    ensures var m := Next(Next(s, Lock(t)), Mutate(t, op));
      && Enabled(m, Commit(t)) && m.row == s.row
      && var c := Next(m, Commit(t));
         && c.log == s.log + [op] && c.holder == None
         && c.row == if op.Delete? then None else Some(Row(op.expected + 1,
              Or(op.patch.name, s.row.value.name), Or(op.patch.description, s.row.value.description), Or(op.patch.price, s.row.value.price)))
  {
  }

  /** Any other mutation is refused under the lock, and cannot commit. */
  lemma OtherMutationRefused(s: State, t: nat, op: Op)
    requires Enabled(s, Mutate(t, op))
    requires s.row == None || s.row.value.version != op.expected || (op.Update? && op.expected >= 4294967295)
    ensures var m := Next(s, Mutate(t, op)); m.work == Refused && m.row == s.row && m.log == s.log && !Enabled(m, Commit(t))
  {
  }
}
