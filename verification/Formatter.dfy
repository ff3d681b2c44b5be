/**
 The blank-line pass of the source formatter. Lines are numbered from 1; `lines[k]` is line `k + 1`.
 The syntax tree contributes the pairs of neighbouring statements, the tokenizer the comments.
 */
module Formatter {
  import opened Options

  // ---------- lines

  /** The characters that Python strips as white space. */
  predicate Space(c: char) {
    var n := c as int;
    || 9 <= n <= 13 || 28 <= n <= 32 || n == 0x85 || n == 0xA0 || n == 0x1680
    || 0x2000 <= n <= 0x200A || n == 0x2028 || n == 0x2029 || n == 0x202F || n == 0x205F || n == 0x3000
  }

  predicate Blank(s: string) {
    forall i | 0 <= i < |s| :: Space(s[i])
  }

  function TrimLeft(s: string): string {
    if s != [] && Space(s[0]) then TrimLeft(s[1..]) else s
  }

  function TrimRight(s: string): string {
    if s != [] && Space(s[|s| - 1]) then TrimRight(s[..|s| - 1]) else s
  }

  predicate CommentLine(s: string) {
    TrimLeft(s) != [] && TrimLeft(s)[0] == '#'
  }

  // ---------- formatter directives

  datatype Comment = Comment(line: nat, text: string)

  function StripHashes(s: string): string {
    if s != [] && s[0] == '#' then StripHashes(s[1..]) else s
  }

  datatype Directive = TurnsOff | TurnsOn | Skips | NoDirective

  function DirectiveOf(c: Comment): Directive {
    var directive := Stripped(c.text);
    if directive == "fmt: off" then TurnsOff
    else if directive == "fmt: on" then TurnsOn
    else if directive == "fmt: skip" then Skips
    else NoDirective
  }

  predicate Spaces(s: string) {
    forall i | 0 <= i < |s| :: Space(s[i])
  }

  predicate Hashes(s: string) {
    forall i | 0 <= i < |s| :: s[i] == '#'
  }

  /** The comment consists of hashes and a directive, with white space around it. */
  predicate SpelledWith(text: string, word: string, hashes: string, left: string, right: string) {
    Hashes(hashes) && Spaces(left) && Spaces(right) && text == hashes + (left + (word + right))
  }

  ghost predicate Spelled(c: Comment, word: string) {
    exists hashes, left, right :: SpelledWith(c.text, word, hashes, left, right)
  }

  ghost predicate Off(c: Comment) {
    Spelled(c, "fmt: off")
  }

  ghost predicate On(c: Comment) {
    Spelled(c, "fmt: on")
  }

  ghost predicate Skip(c: Comment) {
    Spelled(c, "fmt: skip")
  }

  lemma {:induction false} HashesStripped(s: string) returns (hashes: string)
    ensures Hashes(hashes) && s == hashes + StripHashes(s)
    ensures StripHashes(s) == "" || StripHashes(s)[0] != '#'
  {
    hashes := "";
    if s != [] && s[0] == '#' {
      var rest := HashesStripped(s[1..]);
      hashes := "#" + rest;
    }
  }

  lemma {:induction false} LeftTrimmed(s: string) returns (left: string)
    ensures Spaces(left) && s == left + TrimLeft(s)
    ensures TrimLeft(s) == "" || !Space(TrimLeft(s)[0])
  {
    left := "";
    if s != [] && Space(s[0]) {
      var rest := LeftTrimmed(s[1..]);
      left := [s[0]] + rest;
    }
  }

  lemma {:induction false} RightTrimmed(s: string) returns (right: string)
    ensures Spaces(right) && s == TrimRight(s) + right
    ensures TrimRight(s) == "" || !Space(TrimRight(s)[|TrimRight(s)| - 1])
  {
    right := "";
    if s != [] && Space(s[|s| - 1]) {
      var rest := RightTrimmed(s[..|s| - 1]);
      right := rest + [s[|s| - 1]];
    }
  }

  lemma {:induction false} StripsHashes(hashes: string, s: string)
    requires Hashes(hashes) && s != "" && s[0] != '#'
    ensures StripHashes(hashes + s) == s
    decreases |hashes|
  {
    if hashes == "" {
      assert hashes + s == s;
    } else {
      assert (hashes + s)[1..] == hashes[1..] + s;
      StripsHashes(hashes[1..], s);
    }
  }

  lemma {:induction false} TrimsLeft(left: string, s: string)
    requires Spaces(left) && s != "" && !Space(s[0])
    ensures TrimLeft(left + s) == s
    decreases |left|
  {
    if left == "" {
      assert left + s == s;
    } else {
      assert (left + s)[1..] == left[1..] + s;
      TrimsLeft(left[1..], s);
    }
  }

  lemma {:induction false} TrimsRight(s: string, right: string)
    requires Spaces(right) && s != "" && !Space(s[|s| - 1])
    ensures TrimRight(s + right) == s
    decreases |right|
  {
    if right == "" {
      assert s + right == s;
    } else {
      var t := s + right;
      assert t[..|t| - 1] == s + right[..|right| - 1];
      TrimsRight(s, right[..|right| - 1]);
    }
  }

  function Stripped(text: string): string {
    TrimRight(TrimLeft(StripHashes(text)))
  }

  /** Stripping hashes and white space leaves the word exactly if the comment spells it. */
  lemma StrippedExactly(c: Comment, word: string)
    requires word != "" && word[0] != '#' && !Space(word[0]) && !Space(word[|word| - 1])
    ensures Stripped(c.text) == word <==> Spelled(c, word)
  {
    if Stripped(c.text) == word {
      var hashes := HashesStripped(c.text);
      var left := LeftTrimmed(StripHashes(c.text));
      var right := RightTrimmed(TrimLeft(StripHashes(c.text)));
      assert SpelledWith(c.text, word, hashes, left, right);
    }
    if hashes, left, right :| SpelledWith(c.text, word, hashes, left, right) {
      var inside := word + right;
      assert (left + inside)[0] == if left == "" then word[0] else left[0];
      StripsHashes(hashes, left + inside);
      TrimsLeft(left, inside);
      TrimsRight(word, right);
    }
  }

  /** The three directives are recognized by their spelling, whatever hashes and white space surround it. */
  lemma DirectiveSpelled(c: Comment)
    ensures DirectiveOf(c) == TurnsOff <==> Off(c)
    ensures DirectiveOf(c) == TurnsOn <==> On(c)
    ensures DirectiveOf(c) == Skips <==> Skip(c)
  {
    StrippedExactly(c, "fmt: off");
    StrippedExactly(c, "fmt: on");
    StrippedExactly(c, "fmt: skip");
    assert |"fmt: off"| == 8 && |"fmt: on"| == 7 && |"fmt: skip"| == 9;
  }

  /** A line is blank exactly if nothing is left of it once it is stripped. */
  lemma BlankExactly(s: string)
    ensures Blank(s) <==> TrimLeft(s) == ""
  {
    var left := LeftTrimmed(s);
    assert TrimLeft(s) == "" ==> s == left;
    assert TrimLeft(s) != "" ==> s[|left|] == TrimLeft(s)[0];
  }

  /** Of the ASCII characters, the white space is the blank, the five controls from tab to carriage return, and the four separators. */
  lemma AsciiSpace(c: char)
    requires c as int < 128
    ensures Space(c) <==> c == ' ' || c == '\t' || c == '\n' || c == '\r' || c as int in {11, 12, 28, 29, 30, 31}
  {
  }

  /** A comment line has nothing but white space before its first hash. */
  lemma CommentLineExactly(s: string)
    ensures CommentLine(s) <==> exists left, rest :: Spaces(left) && s == left + ("#" + rest)
  {
    var left := LeftTrimmed(s);
    if CommentLine(s) {
      assert s == left + ("#" + TrimLeft(s)[1..]);
    }
    if left, rest :| Spaces(left) && s == left + ("#" + rest) {
      TrimsLeft(left, "#" + rest);
    }
  }

  /** Comments come in the order of their lines. */
  predicate Ordered(cs: seq<Comment>, total: nat) {
    && (forall i, j | 0 <= i < j < |cs| :: cs[i].line <= cs[j].line)
    && (forall i | 0 <= i < |cs| :: 1 <= cs[i].line <= total)
  }

  /** Comment `i` turns formatting off and no comment before the line turns it on again. */
  ghost predicate OffAt(cs: seq<Comment>, total: nat, i: int, line: int) {
    && 0 <= i < |cs| && Off(cs[i]) && cs[i].line <= line <= total
    && forall j | i < j < |cs| && On(cs[j]) :: line <= cs[j].line
  }

  ghost predicate SkipAt(cs: seq<Comment>, i: int, line: int) {
    0 <= i < |cs| && Skip(cs[i]) && cs[i].line == line
  }

  /** The line is kept as it is: it has a skip directive or lies in a region with formatting off. */
  ghost predicate Protected(cs: seq<Comment>, total: nat, line: int) {
    (exists i :: SkipAt(cs, i, line)) || (exists i :: OffAt(cs, total, i, line))
  }

  /** No "on" follows among the first `k` comments. */
  ghost predicate StillOff(cs: seq<Comment>, k: nat, i: int)
    requires k <= |cs|
  {
    0 <= i < k && Off(cs[i]) && forall j | i < j < k :: !On(cs[j])
  }

  /** As `OffAt`, for regions that end among the first `k` comments. */
  ghost predicate ClosedAt(cs: seq<Comment>, k: nat, i: int, line: int)
    requires k <= |cs|
  {
    && 0 <= i < k && Off(cs[i]) && cs[i].line <= line && !StillOff(cs, k, i)
    && forall j | i < j < k && On(cs[j]) :: line <= cs[j].line
  }

  ghost predicate ClosedSoFar(cs: seq<Comment>, k: nat, line: int)
    requires k <= |cs|
  {
    exists i :: ClosedAt(cs, k, i, line)
  }

  ghost predicate ProtectedSoFar(cs: seq<Comment>, k: nat, line: int)
    requires k <= |cs|
  {
    (exists i :: i < k && SkipAt(cs, i, line)) || ClosedSoFar(cs, k, line)
  }

  /** `disabled` is where the first of the regions that are still open starts. */
  ghost predicate OpenSince(cs: seq<Comment>, k: nat, disabled: Option<nat>)
    requires k <= |cs|
  {
    match disabled
    case None => forall i | 0 <= i < k :: !StillOff(cs, k, i)
    case Some(a) => (exists i :: StillOff(cs, k, i) && cs[i].line == a) && forall i | 0 <= i < k && StillOff(cs, k, i) :: a <= cs[i].line
  }

  lemma OneDirective(c: Comment)
    ensures !(Off(c) && On(c)) && !(Off(c) && Skip(c)) && !(On(c) && Skip(c))
  {
    DirectiveSpelled(c);
  }

  lemma StillOffStep(cs: seq<Comment>, k: nat, i: int)
    requires k < |cs|
    ensures StillOff(cs, k + 1, i) <==> !On(cs[k]) && (StillOff(cs, k, i) || (i == k && Off(cs[k])))
  {
    OneDirective(cs[k]);
  }

  lemma OpenStep(cs: seq<Comment>, k: nat, total: nat, disabled: Option<nat>)
    requires k < |cs| && Ordered(cs, total) && OpenSince(cs, k, disabled)
    ensures OpenSince(cs, k + 1, OpenAfter(cs[k], disabled))
  {
    var n := k + 1;
    forall i ensures StillOff(cs, n, i) <==> !On(cs[k]) && (StillOff(cs, k, i) || (i == k && Off(cs[k]))) {
      StillOffStep(cs, k, i);
    }
    if disabled.Some? && !On(cs[k]) {
      var i :| StillOff(cs, k, i) && cs[i].line == disabled.value;
      assert StillOff(cs, n, i);
    } else if Off(cs[k]) && disabled == None {
      assert StillOff(cs, n, k);
    }
  }

  ghost function OpenAfter(c: Comment, disabled: Option<nat>): Option<nat> {
    if On(c) then None else if Off(c) && disabled == None then Some(c.line) else disabled
  }

  lemma ClosedAtStep(cs: seq<Comment>, k: nat, total: nat, i: int, line: int)
    requires k < |cs| && Ordered(cs, total)
    ensures ClosedAt(cs, k + 1, i, line) <==>
      ClosedAt(cs, k, i, line) || (On(cs[k]) && StillOff(cs, k, i) && cs[i].line <= line <= cs[k].line)
  {
    StillOffStep(cs, k, i);
    if ClosedAt(cs, k, i, line) {
      var j :| i < j < k && On(cs[j]);
      assert line <= cs[j].line <= cs[k].line;
    }
    assert 0 <= i < k && Off(cs[i]) && !StillOff(cs, k, i) ==> exists j :: i < j < k && On(cs[j]);
  }

  lemma ClosedStep(cs: seq<Comment>, k: nat, total: nat, disabled: Option<nat>, line: int)
    requires k < |cs| && Ordered(cs, total) && OpenSince(cs, k, disabled)
    ensures ClosedSoFar(cs, k + 1, line) <==>
      ClosedSoFar(cs, k, line) || (On(cs[k]) && disabled.Some? && disabled.value <= line <= cs[k].line)
  {
    var n := k + 1;
    forall i ensures ClosedAt(cs, n, i, line) <==>
      ClosedAt(cs, k, i, line) || (On(cs[k]) && StillOff(cs, k, i) && cs[i].line <= line <= cs[k].line)
    {
      ClosedAtStep(cs, k, total, i, line);
    }
    if On(cs[k]) && disabled.Some? && disabled.value <= line <= cs[k].line {
      var i :| StillOff(cs, k, i) && cs[i].line == disabled.value;
      assert ClosedAt(cs, n, i, line);
    }
    if i :| ClosedAt(cs, k, i, line) {
      assert ClosedAt(cs, n, i, line);
    }
  }

  lemma ProtectedStep(cs: seq<Comment>, k: nat, total: nat, disabled: Option<nat>, line: int)
    requires k < |cs| && Ordered(cs, total) && OpenSince(cs, k, disabled)
    ensures ProtectedSoFar(cs, k + 1, line) <==>
      || ProtectedSoFar(cs, k, line) || (Skip(cs[k]) && cs[k].line == line)
      || (On(cs[k]) && disabled.Some? && disabled.value <= line <= cs[k].line)
  {
    ClosedStep(cs, k, total, disabled, line);
    if i :| i < k && SkipAt(cs, i, line) {
      assert i < k + 1 && SkipAt(cs, i, line);
    }
    assert SkipAt(cs, k, line) <==> Skip(cs[k]) && cs[k].line == line;
  }

  /** The lines from `a` to `b`. */
  function Lines(a: int, b: int): (r: set<int>)
    ensures forall n :: n in r <==> a <= n <= b
    decreases b - a
  {
    if a > b then {} else Lines(a, b - 1) + {b}
  }

  lemma ClosedAtEnd(cs: seq<Comment>, total: nat, disabled: Option<nat>, line: int)
    requires Ordered(cs, total) && OpenSince(cs, |cs|, disabled)
    ensures Protected(cs, total, line) <==> ProtectedSoFar(cs, |cs|, line) || (disabled.Some? && disabled.value <= line <= total)
  {
    forall i | ClosedAt(cs, |cs|, i, line) ensures OffAt(cs, total, i, line) {
      var j :| i < j < |cs| && On(cs[j]);
    }
    if disabled.Some? && disabled.value <= line <= total {
      var i :| StillOff(cs, |cs|, i) && cs[i].line == disabled.value;
      assert OffAt(cs, total, i, line);
    }
    forall i | OffAt(cs, total, i, line) && !ClosedAt(cs, |cs|, i, line) ensures disabled.Some? && disabled.value <= line <= total {
      assert StillOff(cs, |cs|, i);
    }
  }

  /** What comment `k` adds to the protected lines. */
  ghost function Added(c: Comment, disabled: Option<nat>): set<int> {
    if On(c) && disabled.Some? then Lines(disabled.value, c.line) else if Skip(c) then {c.line as int} else {}
  }

  lemma ProtectedAfter(cs: seq<Comment>, k: nat, total: nat, disabled: Option<nat>, before: set<int>)
    requires k < |cs| && Ordered(cs, total) && OpenSince(cs, k, disabled)
    requires forall line :: line in before <==> ProtectedSoFar(cs, k, line)
    ensures forall line :: line in before + Added(cs[k], disabled) <==> ProtectedSoFar(cs, k + 1, line)
  {
    forall line ensures line in before + Added(cs[k], disabled) <==> ProtectedSoFar(cs, k + 1, line) {
      ProtectedStep(cs, k, total, disabled, line);
    }
  }

  lemma ProtectedAtEnd(cs: seq<Comment>, total: nat, disabled: Option<nat>, before: set<int>)
    requires Ordered(cs, total) && OpenSince(cs, |cs|, disabled)
    requires forall line :: line in before <==> ProtectedSoFar(cs, |cs|, line)
    ensures forall line ::
      line in before + (if disabled.Some? then Lines(disabled.value, total) else {}) <==> Protected(cs, total, line)
  {
    forall line ensures line in before + (if disabled.Some? then Lines(disabled.value, total) else {}) <==> Protected(cs, total, line) {
      ClosedAtEnd(cs, total, disabled, line);
    }
  }

  /** Takes one comment into account. */
  method Protect(c: Comment, disabled: Option<nat>, protected: set<int>) returns (disabled': Option<nat>, protected': set<int>)
    ensures disabled' == OpenAfter(c, disabled) && protected' == protected + Added(c, disabled)
  {
    disabled', protected' := disabled, protected;
    DirectiveSpelled(c);
    var directive := DirectiveOf(c);
    if directive == TurnsOff && disabled == None {
      disabled' := Some(c.line);
    } else if directive == TurnsOn && disabled.Some? {
      protected' := protected + Lines(disabled.value, c.line);
      disabled' := None;
    } else if directive == Skips {
      protected' := protected + {c.line};
    }
  }

  /** The lines that formatter directives protect. */
  method ProtectedLines(cs: seq<Comment>, total: nat) returns (protected: set<int>)
    requires Ordered(cs, total)
    ensures forall line :: line in protected <==> Protected(cs, total, line)
  {
    protected := {};
    var disabled: Option<nat> := None;
    for k := 0 to |cs|
      invariant OpenSince(cs, k, disabled)
      invariant forall line :: line in protected <==> ProtectedSoFar(cs, k, line)
    {
      OpenStep(cs, k, total, disabled);
      ProtectedAfter(cs, k, total, disabled, protected);
      disabled, protected := Protect(cs[k], disabled, protected);
    }
    ProtectedAtEnd(cs, total, disabled, protected);
    if disabled.Some? {
      protected := protected + Lines(disabled.value, total);
    }
  }
}
