/**
 Inserting the blank lines: which pairs of neighbouring statements need one, where it goes, and what
 the pass leaves as it was.
 */
module FormatterSpacing {
  import opened Options
  import opened Sequences
  import opened Formatter

  /** Statements as the rules tell them apart: `Try` is a block too, `Leave` is a return or a raise. */
  datatype Kind = Assignment | Block | Try | Leave | Plain

  /**
   Two neighbouring statements: the lines of the first, the lines where the second starts (with its
   decorators) and ends, their kinds, and whether the first is a docstring.
   */
  datatype Pair = Pair(line: nat, end: nat, start: nat, last: nat, first: Kind, second: Kind, docstring: bool)

  /** The rules ask for a blank line: after assignments, after blocks, and before a try, return or raise. */
  predicate Required(p: Pair) {
    || (p.first.Assignment? && !p.second.Assignment?)
    || p.first.Block? || p.first.Try?
    || p.second.Try? || p.second.Leave?
  }

  predicate PairOk(total: nat, p: Pair) {
    1 <= p.line <= p.end <= total && 1 <= p.start <= p.last <= total
  }

  predicate PairsOk(total: nat, ps: seq<Pair>) {
    forall i | 0 <= i < |ps| :: PairOk(total, ps[i])
  }

  predicate Touches(protected: set<int>, p: Pair) {
    exists l | p.line <= l <= p.last :: l in protected
  }

  /** A line between the two statements is blank. */
  predicate Separated(lines: seq<string>, p: Pair)
    requires PairOk(|lines|, p)
  {
    exists k | p.end <= k < p.start - 1 :: Blank(lines[k])
  }

  predicate Needs(lines: seq<string>, protected: set<int>, p: Pair)
    requires PairOk(|lines|, p)
  {
    p.start > p.end && !p.docstring && Required(p) && !Touches(protected, p) && !Separated(lines, p)
  }

  /** Above the comments that directly precede line `at + 1`, but below line `end`. */
  function Point(lines: seq<string>, end: nat, at: nat): (r: nat)
    requires end <= at <= |lines|
    ensures end <= r <= at
    ensures forall k | r <= k < at :: CommentLine(lines[k])
    ensures r == end || !CommentLine(lines[r - 1])
  {
    if at > end && CommentLine(lines[at - 1]) then Point(lines, end, at - 1) else at
  }

  function PlaceOf(lines: seq<string>, protected: set<int>, p: Pair): Option<nat>
    requires PairOk(|lines|, p)
  {
    if Needs(lines, protected, p) then Some(Point(lines, p.end, p.start - 1)) else None
  }

  /** The insertion points: index `i` stands for a blank line between line `i` and line `i + 1`. */
  function Points(lines: seq<string>, protected: set<int>, ps: seq<Pair>): set<nat>
    requires PairsOk(|lines|, ps)
  {
    if ps == [] then {}
    else
      var place := PlaceOf(lines, protected, ps[|ps| - 1]);
      Points(lines, protected, ps[..|ps| - 1]) + (if place.Some? then {place.value} else {})
  }

  lemma {:induction false} PointsExactly(lines: seq<string>, protected: set<int>, ps: seq<Pair>, x: nat)
    requires PairsOk(|lines|, ps)
    ensures x in Points(lines, protected, ps) <==> exists i | 0 <= i < |ps| :: PlaceOf(lines, protected, ps[i]) == Some(x)
  {
    if ps != [] {
      PointsExactly(lines, protected, ps[..|ps| - 1], x);
      assert forall i | 0 <= i < |ps| - 1 :: ps[..|ps| - 1][i] == ps[i];
    }
  }

  /** Moves an insertion point up past the comments above it. */
  method AboveComments(lines: seq<string>, end: nat, at: nat) returns (insertion: nat)
    requires end <= at <= |lines|
    ensures insertion == Point(lines, end, at)
  {
    insertion := at;
    while insertion > end && CommentLine(lines[insertion - 1])
      invariant end <= insertion <= at
      invariant Point(lines, end, insertion) == Point(lines, end, at)
    {
      insertion := insertion - 1;
    }
  }

  method Place(lines: seq<string>, protected: set<int>, p: Pair) returns (place: Option<nat>)
    requires PairOk(|lines|, p)
    ensures place == PlaceOf(lines, protected, p)
  {
    if p.start <= p.end || p.docstring {
      return None;
    }
    if !Required(p) || Touches(protected, p) {
      return None;
    }
    if Separated(lines, p) {
      return None;
    }
    var insertion := AboveComments(lines, p.end, p.start - 1);
    return Some(insertion);
  }

  method CollectPoints(lines: seq<string>, protected: set<int>, ps: seq<Pair>) returns (insertions: set<nat>)
    requires PairsOk(|lines|, ps)
    ensures insertions == Points(lines, protected, ps)
  {
    insertions := {};
    for i := 0 to |ps|
      invariant insertions == Points(lines, protected, ps[..i])
    {
      var place := Place(lines, protected, ps[i]);
      assert ps[..i + 1][..i] == ps[..i];
      if place.Some? {
        insertions := insertions + {place.value};
      }
    }
    assert ps[..|ps|] == ps;
  }

  // ---------- inserting

  /** All blank lines inserted at once, from index `k` on. */
  function Weave(lines: seq<string>, ins: set<nat>, k: nat): seq<string>
    requires k <= |lines|
    decreases |lines| - k
  {
    if k == |lines| then []
    else
      var rest := [lines[k]] + Weave(lines, ins, k + 1);
      if k in ins then ["\n"] + rest else rest
  }

  /** The insertion points below `n`, largest first. */
  function Descending(ins: set<nat>, n: nat): seq<nat> {
    if n == 0 then [] else (if n - 1 in ins then [n - 1] else []) + Descending(ins, n - 1)
  }

  lemma {:induction false} WeaveNone(lines: seq<string>, ins: set<nat>, k: nat, m: nat)
    requires k <= m <= |lines| && forall i | k <= i < m :: i !in ins
    ensures Weave(lines, ins, k) == lines[k..m] + Weave(lines, ins, m)
    decreases m - k
  {
    if k < m {
      WeaveNone(lines, ins, k + 1, m);
      assert lines[k..m] == [lines[k]] + lines[k + 1..m];
      Regroup([lines[k]], lines[k + 1..m], Weave(lines, ins, m));
    } else {
      assert lines[k..m] == [];
    }
  }

  lemma {:induction false} DescendingFirst(ins: set<nat>, n: nat)
    ensures var d := Descending(ins, n);
      if d == [] then forall i | 0 <= i < n :: i !in ins
      else d[0] < n && d[0] in ins && (forall i | d[0] < i < n :: i !in ins) && d[1..] == Descending(ins, d[0])
  {
    if n > 0 {
      if n - 1 in ins {
        assert Descending(ins, n) == [n - 1] + Descending(ins, n - 1);
      } else {
        DescendingFirst(ins, n - 1);
        assert Descending(ins, n) == Descending(ins, n - 1);
      }
    }
  }

  /** Inserting in place, largest index first, comes to inserting all at once. */
  method InsertDescending(lines: seq<string>, insertions: set<nat>) returns (spaced: seq<string>)
    requires forall i | i in insertions :: i < |lines|
    ensures spaced == Weave(lines, insertions, 0)
  {
    spaced := lines;
    var todo := Descending(insertions, |lines|);
    ghost var done: nat := |lines|;
    assert lines[..|lines|] + Weave(lines, insertions, |lines|) == lines;
    while todo != []
      invariant done <= |lines| && todo == Descending(insertions, done)
      invariant spaced == lines[..done] + Weave(lines, insertions, done)
      decreases |todo|
    {
      var insertion := todo[0];
      DescendingFirst(insertions, done);
      InsertStep(lines, insertions, insertion, done);
      spaced := spaced[..insertion] + ["\n"] + spaced[insertion..];
      todo := todo[1..];
      done := insertion;
    }
    DescendingFirst(insertions, done);
    WeaveNone(lines, insertions, 0, done);
    assert lines[..done] == lines[0..done];
  }

  lemma InsertStep(lines: seq<string>, ins: set<nat>, i: nat, done: nat)
    requires i < done <= |lines| && i in ins && forall j | i < j < done :: j !in ins
    ensures var s := lines[..done] + Weave(lines, ins, done);
      s[..i] + ["\n"] + s[i..] == lines[..i] + Weave(lines, ins, i)
  {
    WeaveNone(lines, ins, i + 1, done);
    assert lines[..done] == lines[..i] + ([lines[i]] + lines[i + 1..done]);
    Splice(lines[..i], [lines[i]] + lines[i + 1..done], Weave(lines, ins, done));
    Regroup([lines[i]], lines[i + 1..done], Weave(lines, ins, done));
  }

  lemma Splice(a: seq<string>, b: seq<string>, c: seq<string>)
    ensures ((a + b) + c)[..|a|] + ["\n"] + ((a + b) + c)[|a|..] == a + (["\n"] + (b + c))
  {
    assert ((a + b) + c)[..|a|] == a;
    assert ((a + b) + c)[|a|..] == b + c;
  }

  // ---------- where lines go

  /** How many of the insertion points lie below `n`. */
  function Rank(ins: set<nat>, n: nat): nat {
    if n == 0 then 0 else Rank(ins, n - 1) + (if n - 1 in ins then 1 else 0)
  }

  /** The new number of line `n`. */
  function Shift(ins: set<nat>, n: nat): nat {
    n + Rank(ins, n)
  }

  lemma {:induction false} ShiftGrows(ins: set<nat>, m: nat, n: nat)
    requires m <= n
    ensures Shift(ins, n) - Shift(ins, m) >= n - m
    ensures m < n && m in ins ==> Shift(ins, n) - Shift(ins, m) >= n - m + 1
  {
    if m < n {
      ShiftGrows(ins, m, n - 1);
    }
  }

  /** The woven text from index `k` on is the part of the whole that starts after line `k`, wherever it lies. */
  lemma {:induction false} WeaveAt(lines: seq<string>, ins: set<nat>, k: nat)
    requires k < |lines|
    ensures Shift(ins, k + 1) <= |Weave(lines, ins, 0)|
    ensures Weave(lines, ins, 0)[Shift(ins, k + 1) - 1] == lines[k]
    ensures k in ins ==> Weave(lines, ins, 0)[Shift(ins, k)] == "\n"
  {
    WeaveTail(lines, ins, k);
    var w := Weave(lines, ins, 0);
    var t := Weave(lines, ins, k);
    assert w[Shift(ins, k)..][0] == t[0];
    assert k in ins ==> w[Shift(ins, k)..][1] == t[1];
  }

  lemma {:induction false} WeaveTail(lines: seq<string>, ins: set<nat>, k: nat)
    requires k <= |lines|
    ensures Shift(ins, k) <= |Weave(lines, ins, 0)| && Weave(lines, ins, 0)[Shift(ins, k)..] == Weave(lines, ins, k)
  {
    if k > 0 {
      WeaveTail(lines, ins, k - 1);
      var w := Weave(lines, ins, 0);
      var t := w[Shift(ins, k - 1)..];
      var n := if k - 1 in ins then 2 else 1;
      assert t[n..] == Weave(lines, ins, k);
      assert t[n..] == w[Shift(ins, k)..];
    }
  }

  lemma WeaveLength(lines: seq<string>, ins: set<nat>)
    ensures |Weave(lines, ins, 0)| == Shift(ins, |lines|)
  {
    WeaveTail(lines, ins, |lines|);
  }

  /** Each new line is an old one or a blank one put in. */
  lemma {:induction false} Locate(ins: set<nat>, m: nat, x: nat)
    requires 1 <= x <= Shift(ins, m)
    ensures (exists n | 1 <= n <= m :: x == Shift(ins, n)) || (exists i | i in ins && i < m :: x == Shift(ins, i) + 1)
  {
    if x <= Shift(ins, m - 1) {
      Locate(ins, m - 1, x);
    } else if m - 1 in ins && x == Shift(ins, m - 1) + 1 {
    } else {
      assert x == Shift(ins, m);
    }
  }

  /** The lines whose index is not in `drop`; `x` is the index of the first. */
  function Without(ls: seq<string>, drop: set<nat>, x: nat): seq<string> {
    if ls == [] then [] else (if x in drop then [] else [ls[0]]) + Without(ls[1..], drop, x + 1)
  }

  /** The indices at which blank lines were put in. */
  function Inserted(ins: set<nat>): set<nat> {
    set i | i in ins :: Shift(ins, i)
  }

  lemma InsertedExactly(ins: set<nat>, k: nat)
    ensures k in ins ==> Shift(ins, k) in Inserted(ins)
    ensures Shift(ins, k + 1) - 1 !in Inserted(ins)
  {
    forall i | i in ins ensures Shift(ins, i) != Shift(ins, k + 1) - 1 {
      if i <= k {
        ShiftGrows(ins, i, k + 1);
      } else {
        ShiftGrows(ins, k + 1, i);
      }
    }
  }

  lemma {:induction false} EraseFrom(lines: seq<string>, ins: set<nat>, k: nat)
    requires k <= |lines|
    ensures Without(Weave(lines, ins, k), Inserted(ins), Shift(ins, k)) == lines[k..]
    decreases |lines| - k
  {
    if k < |lines| {
      EraseFrom(lines, ins, k + 1);
      InsertedExactly(ins, k);
      var w, rest := Weave(lines, ins, k), Weave(lines, ins, k + 1);
      if k in ins {
        assert w[1..] == [lines[k]] + rest;
        assert w[1..][1..] == rest;
      } else {
        assert w == [lines[k]] + rest && w[1..] == rest;
      }
      assert lines[k..] == [lines[k]] + lines[k + 1..];
    }
  }

  /** Erasing the lines that were put in gives back the source. */
  lemma EraseRestores(lines: seq<string>, ins: set<nat>)
    ensures Without(Weave(lines, ins, 0), Inserted(ins), 0) == lines
    ensures forall i | i in ins && i < |lines| :: Shift(ins, i) < |Weave(lines, ins, 0)| && Weave(lines, ins, 0)[Shift(ins, i)] == "\n"
  {
    EraseFrom(lines, ins, 0);
    assert lines[0..] == lines;
    forall i | i in ins && i < |lines| ensures Shift(ins, i) < |Weave(lines, ins, 0)| && Weave(lines, ins, 0)[Shift(ins, i)] == "\n" {
      WeaveAt(lines, ins, i);
    }
  }

  /** After a block always; after an assignment unless another follows; otherwise only before a try, a return or a raise. */
  lemma RequiredByKinds(p: Pair)
    ensures p.first in {Block, Try} ==> Required(p)
    ensures p.first == Assignment ==> (Required(p) <==> p.second != Assignment)
    ensures p.first in {Leave, Plain} ==> (Required(p) <==> p.second in {Try, Leave})
  {
  }

  /**
   Index `i` lies between the two statements of a pair that the rules ask to separate, that is not yet
   separated, whose first is no docstring and of whose lines none is protected, directly above the
   comments attached to the second.
   */
  predicate GoesInto(lines: seq<string>, protected: set<int>, p: Pair, i: nat) {
    && 1 <= p.line <= p.end <= i < p.start <= p.last <= |lines|
    && Required(p) && !p.docstring
    && (forall l | p.line <= l <= p.last :: l !in protected)
    && (forall k | p.end <= k < p.start - 1 :: !Blank(lines[k]))
    && (forall k | i <= k < p.start - 1 :: CommentLine(lines[k]))
    && (i == p.end || !CommentLine(lines[i - 1]))
  }

  /** Every inserted blank line goes into such a pair, so it is next to no protected line. */
  lemma InsertedBetween(lines: seq<string>, protected: set<int>, ps: seq<Pair>, i: nat)
    requires PairsOk(|lines|, ps) && i in Points(lines, protected, ps)
    ensures exists x | 0 <= x < |ps| :: GoesInto(lines, protected, ps[x], i)
    ensures 1 <= i < |lines| && i !in protected && i + 1 !in protected
  {
    PointsExactly(lines, protected, ps, i);
    var x :| 0 <= x < |ps| && PlaceOf(lines, protected, ps[x]) == Some(i);
    assert PairOk(|lines|, ps[x]);
    PlacedBetween(lines, protected, ps[x], i);
  }

  lemma PlacedBetween(lines: seq<string>, protected: set<int>, p: Pair, i: nat)
    requires PairOk(|lines|, p) && PlaceOf(lines, protected, p) == Some(i)
    ensures GoesInto(lines, protected, p, i)
    ensures 1 <= i < |lines| && i !in protected && i + 1 !in protected
  {
    assert p.line <= i && i + 1 <= p.last;
  }

  lemma PointsInside(lines: seq<string>, protected: set<int>, ps: seq<Pair>)
    requires PairsOk(|lines|, ps)
    ensures forall i | i in Points(lines, protected, ps) :: i < |lines|
  {
    forall i | i in Points(lines, protected, ps) ensures i < |lines| {
      InsertedBetween(lines, protected, ps, i);
    }
  }

  // ---------- the second pass

  function ShiftPair(ins: set<nat>, p: Pair): Pair {
    p.(line := Shift(ins, p.line), end := Shift(ins, p.end), start := Shift(ins, p.start), last := Shift(ins, p.last))
  }

  function ShiftPairs(ins: set<nat>, ps: seq<Pair>): (r: seq<Pair>)
    ensures |r| == |ps| && forall i | 0 <= i < |ps| :: r[i] == ShiftPair(ins, ps[i])
  {
    seq(|ps|, i requires 0 <= i < |ps| => ShiftPair(ins, ps[i]))
  }

  function ShiftComments(ins: set<nat>, cs: seq<Comment>): (r: seq<Comment>)
    ensures |r| == |cs| && forall i | 0 <= i < |cs| :: r[i] == cs[i].(line := Shift(ins, cs[i].line))
  {
    seq(|cs|, i requires 0 <= i < |cs| => cs[i].(line := Shift(ins, cs[i].line)))
  }

  lemma ShiftOrder(ins: set<nat>, m: nat, n: nat)
    ensures m <= n <==> Shift(ins, m) <= Shift(ins, n)
  {
    if m <= n {
      ShiftGrows(ins, m, n);
    } else {
      ShiftGrows(ins, n, m);
    }
  }

  lemma ShiftedPairsOk(lines: seq<string>, ins: set<nat>, ps: seq<Pair>)
    requires PairsOk(|lines|, ps)
    ensures PairsOk(|Weave(lines, ins, 0)|, ShiftPairs(ins, ps))
  {
    WeaveLength(lines, ins);
    forall i | 0 <= i < |ps| ensures PairOk(|Weave(lines, ins, 0)|, ShiftPair(ins, ps[i])) {
      var p := ps[i];
      assert PairOk(|lines|, p);
      ShiftOrder(ins, p.line, p.end);
      ShiftOrder(ins, p.end, |lines|);
      ShiftOrder(ins, p.start, p.last);
      ShiftOrder(ins, p.last, |lines|);
    }
  }

  /** An old blank line between two statements is still between them. */
  lemma StaysSeparated(lines: seq<string>, ins: set<nat>, p: Pair)
    requires PairOk(|lines|, p) && Separated(lines, p)
    requires PairOk(|Weave(lines, ins, 0)|, ShiftPair(ins, p))
    ensures Separated(Weave(lines, ins, 0), ShiftPair(ins, p))
  {
    var k :| p.end <= k < p.start - 1 && Blank(lines[k]);
    WeaveAt(lines, ins, k);
    ShiftOrder(ins, p.end, k + 1);
    ShiftGrows(ins, p.end, k + 1);
    ShiftGrows(ins, k + 1, p.start);
    var x := Shift(ins, k + 1) - 1;
    assert Blank(Weave(lines, ins, 0)[x]);
  }

  /** A pair that needed a blank line has one. */
  lemma BecomesSeparated(lines: seq<string>, ins: set<nat>, p: Pair)
    requires PairOk(|lines|, p) && p.start > p.end && Point(lines, p.end, p.start - 1) in ins
    requires PairOk(|Weave(lines, ins, 0)|, ShiftPair(ins, p))
    ensures Separated(Weave(lines, ins, 0), ShiftPair(ins, p))
  {
    var i := Point(lines, p.end, p.start - 1);
    WeaveAt(lines, ins, i);
    ShiftGrows(ins, p.end, i);
    ShiftGrows(ins, i, p.start);
    assert Blank(Weave(lines, ins, 0)[Shift(ins, i)]);
  }

  /** `protected'` are the old protected lines under their new numbers. */
  predicate Moved(ins: set<nat>, total: nat, protected: set<int>, protected': set<int>) {
    forall n | 1 <= n <= total && n in protected :: Shift(ins, n) in protected'
  }

  lemma StaysTouched(ins: set<nat>, total: nat, protected: set<int>, protected': set<int>, p: Pair)
    requires PairOk(total, p) && Moved(ins, total, protected, protected')
    ensures Touches(protected, p) && p.last <= total ==> Touches(protected', ShiftPair(ins, p))
  {
    if Touches(protected, p) {
      var l :| p.line <= l <= p.last && l in protected;
      ShiftOrder(ins, p.line, l);
      ShiftOrder(ins, l, p.last);
      assert Shift(ins, l) in protected';
    }
  }

  /** After the pass every pair that needs it is separated, so a second pass inserts nothing. */
  lemma SecondPassInsertsNothing(lines: seq<string>, protected: set<int>, protected': set<int>, ps: seq<Pair>)
    requires PairsOk(|lines|, ps)
    requires Moved(Points(lines, protected, ps), |lines|, protected, protected')
    ensures var ins := Points(lines, protected, ps);
      var spaced := Weave(lines, ins, 0);
      PairsOk(|spaced|, ShiftPairs(ins, ps)) && Points(spaced, protected', ShiftPairs(ins, ps)) == {}
  {
    var ins := Points(lines, protected, ps);
    var spaced := Weave(lines, ins, 0);
    ShiftedPairsOk(lines, ins, ps);
    forall x: nat ensures x !in Points(spaced, protected', ShiftPairs(ins, ps)) {
      PointsExactly(spaced, protected', ShiftPairs(ins, ps), x);
      if i :| 0 <= i < |ps| && PlaceOf(spaced, protected', ShiftPairs(ins, ps)[i]) == Some(x) {
        NeedsNoMore(lines, protected, protected', ps, i);
      }
    }
  }

  lemma NeedsNoMore(lines: seq<string>, protected: set<int>, protected': set<int>, ps: seq<Pair>, i: nat)
    requires PairsOk(|lines|, ps) && i < |ps|
    requires Moved(Points(lines, protected, ps), |lines|, protected, protected')
    requires PairOk(|Weave(lines, Points(lines, protected, ps), 0)|, ShiftPair(Points(lines, protected, ps), ps[i]))
    ensures var ins := Points(lines, protected, ps); !Needs(Weave(lines, ins, 0), protected', ShiftPair(ins, ps[i]))
  {
    var ins := Points(lines, protected, ps);
    var p := ps[i];
    assert PairOk(|lines|, p);
    ShiftOrder(ins, p.start, p.end);
    StaysTouched(ins, |lines|, protected, protected', p);
    if Needs(lines, protected, p) {
      PlacedAt(lines, protected, ps, i, p, Point(lines, p.end, p.start - 1));
      BecomesSeparated(lines, ins, p);
    } else if Separated(lines, p) {
      StaysSeparated(lines, ins, p);
    }
  }

  // ---------- the whole pass

  ghost function ProtectedSet(cs: seq<Comment>, total: nat): set<int> {
    set line | line in Lines(1, total) && Protected(cs, total, line)
  }

  lemma ProtectedExactly(cs: seq<Comment>, total: nat, line: int)
    requires Ordered(cs, total)
    ensures line in ProtectedSet(cs, total) <==> Protected(cs, total, line)
  {
    if i :| SkipAt(cs, i, line) {
      assert 1 <= cs[i].line <= total;
    } else if i :| OffAt(cs, total, i, line) {
      assert 1 <= cs[i].line;
    }
  }

  ghost function Pass(lines: seq<string>, cs: seq<Comment>, ps: seq<Pair>): seq<string>
    requires PairsOk(|lines|, ps)
  {
    Weave(lines, Points(lines, ProtectedSet(cs, |lines|), ps), 0)
  }

  method SpacedSource(lines: seq<string>, cs: seq<Comment>, ps: seq<Pair>) returns (spaced: seq<string>)
    requires Ordered(cs, |lines|) && PairsOk(|lines|, ps)
    ensures spaced == Pass(lines, cs, ps)
  {
    var protected := ProtectedLines(cs, |lines|);
    forall line ensures line in protected <==> line in ProtectedSet(cs, |lines|) {
      ProtectedExactly(cs, |lines|, line);
    }
    assert protected == ProtectedSet(cs, |lines|);
    var insertions := CollectPoints(lines, protected, ps);
    PointsInside(lines, protected, ps);
    spaced := InsertDescending(lines, insertions);
  }

  /** Directives protect the same lines under their new numbers. */
  lemma ProtectedMoves(ins: set<nat>, cs: seq<Comment>, total: nat, n: nat)
    requires 1 <= n <= total && Protected(cs, total, n)
    ensures Protected(ShiftComments(ins, cs), Shift(ins, total), Shift(ins, n))
  {
    var cs' := ShiftComments(ins, cs);
    if i :| SkipAt(cs, i, n) {
      assert SkipAt(cs', i, Shift(ins, n));
    } else {
      var i :| OffAt(cs, total, i, n);
      ShiftOrder(ins, cs[i].line, n);
      ShiftOrder(ins, n, total);
      forall j | i < j < |cs'| && On(cs'[j]) ensures Shift(ins, n) <= cs'[j].line {
        ShiftOrder(ins, n, cs[j].line);
      }
      assert OffAt(cs', Shift(ins, total), i, Shift(ins, n));
    }
  }

  /** The pass is stable on its own output. */
  lemma PassIsStable(lines: seq<string>, cs: seq<Comment>, ps: seq<Pair>)
    requires PairsOk(|lines|, ps)
    ensures var ins := Points(lines, ProtectedSet(cs, |lines|), ps);
      var spaced := Pass(lines, cs, ps);
      PairsOk(|spaced|, ShiftPairs(ins, ps)) && Pass(spaced, ShiftComments(ins, cs), ShiftPairs(ins, ps)) == spaced
  {
    var protected := ProtectedSet(cs, |lines|);
    var ins := Points(lines, protected, ps);
    var spaced := Pass(lines, cs, ps);
    var protected' := ProtectedSet(ShiftComments(ins, cs), |spaced|);
    WeaveLength(lines, ins);
    forall n | 1 <= n <= |lines| && n in protected ensures Shift(ins, n) in protected' {
      ProtectedMoves(ins, cs, |lines|, n);
      ShiftOrder(ins, n, |lines|);
    }
    SecondPassInsertsNothing(lines, protected, protected', ps);
    WeaveNone(spaced, {}, 0, |spaced|);
    assert spaced[0..|spaced|] == spaced;
  }

  lemma ShiftedPairOk(lines: seq<string>, ins: set<nat>, p: Pair)
    requires PairOk(|lines|, p)
    ensures PairOk(|Weave(lines, ins, 0)|, ShiftPair(ins, p))
  {
    ShiftedPairsOk(lines, ins, [p]);
    assert PairOk(|Weave(lines, ins, 0)|, ShiftPairs(ins, [p])[0]);
  }

  lemma PlacedAt(lines: seq<string>, protected: set<int>, ps: seq<Pair>, i: nat, p: Pair, x: nat)
    requires PairsOk(|lines|, ps) && i < |ps| && ps[i] == p && PlaceOf(lines, protected, p) == Some(x)
    ensures x in Points(lines, protected, ps)
  {
    PointsExactly(lines, protected, ps, x);
  }

  lemma SeparatedAfter(lines: seq<string>, ins: set<nat>, p: Pair)
    requires PairOk(|lines|, p) && p.start > p.end
    requires Separated(lines, p) || Point(lines, p.end, p.start - 1) in ins
    ensures PairOk(|Weave(lines, ins, 0)|, ShiftPair(ins, p)) && Separated(Weave(lines, ins, 0), ShiftPair(ins, p))
  {
    ShiftedPairOk(lines, ins, p);
    if Separated(lines, p) {
      StaysSeparated(lines, ins, p);
    } else {
      BecomesSeparated(lines, ins, p);
    }
  }

  lemma Separates(lines: seq<string>, protected: set<int>, ps: seq<Pair>, i: nat, p: Pair)
    requires PairsOk(|lines|, ps) && i < |ps| && ps[i] == p
    requires Required(p) && !p.docstring && p.start > p.end && !Touches(protected, p)
    ensures var ins := Points(lines, protected, ps);
      var spaced := Weave(lines, ins, 0);
      PairOk(|spaced|, ShiftPair(ins, p)) && Separated(spaced, ShiftPair(ins, p))
  {
    assert PairOk(|lines|, p);
    if !Separated(lines, p) {
      PlacedAt(lines, protected, ps, i, p, Point(lines, p.end, p.start - 1));
    }
    SeparatedAfter(lines, Points(lines, protected, ps), p);
  }

  /** Every pair that the rules ask to separate, and of whose lines no directive protects any, has a blank line between its statements afterwards. */
  lemma PassSeparates(lines: seq<string>, cs: seq<Comment>, ps: seq<Pair>, i: nat)
    requires PairsOk(|lines|, ps) && i < |ps|
    requires Required(ps[i]) && !ps[i].docstring && ps[i].start > ps[i].end
    requires forall l | ps[i].line <= l <= ps[i].last :: !Protected(cs, |lines|, l)
    ensures var ins := Points(lines, ProtectedSet(cs, |lines|), ps);
      exists k | Shift(ins, ps[i].end) <= k < Shift(ins, ps[i].start) - 1 :: k < |Pass(lines, cs, ps)| && Blank(Pass(lines, cs, ps)[k])
  {
    var protected := ProtectedSet(cs, |lines|);
    var p := ps[i];
    Separates(lines, protected, ps, i, p);
    var ins := Points(lines, protected, ps);
    var k :| Shift(ins, p.end) <= k < Shift(ins, p.start) - 1 && Blank(Pass(lines, cs, ps)[k]);
  }
}
