/** Printing in canonical form is a prefix code: equal concatenations have equal parts. */
module PrefixCodes {
  import opened Options
  import opened Sequences
  import opened CanonicalEncoding

  // ---------- canonical form

  /** The same number with no trailing zero in its coefficient, and zero as 0 * 10^0. */
  function Normal(n: Decimal): (r: Decimal)
    decreases n.coefficient
  {
    if n.coefficient == 0 then Decimal(false, 0, 0)
    else if n.coefficient % 10 == 0 then Normal(n.(coefficient := n.coefficient / 10, exponent := n.exponent + 1))
    else n
  }

  function CanonAll(vs: seq<Json>): (r: seq<Json>)
    ensures |r| == |vs|
    ensures forall i | 0 <= i < |vs| :: r[i] == Canon(vs[i])
  {
    if vs == [] then [] else [Canon(vs[0])] + CanonAll(vs[1..])
  }

  function CanonMembers(ms: seq<Member<Json>>): (r: seq<Member<Json>>)
    ensures |r| == |ms|
    ensures forall i | 0 <= i < |ms| :: r[i] == Member(ms[i].key, Canon(ms[i].value))
  {
    if ms == [] then [] else [Member(ms[0].key, Canon(ms[0].value))] + CanonMembers(ms[1..])
  }

  /** Numbers in normal form and members in the order of their keys. */
  function Canon(v: Json): Json {
    match v
    case Num(n) => Num(Normal(n))
    case Arr(items) => Arr(CanonAll(items))
    case Obj(ms) => Obj(SortByKey(CanonMembers(ms)))
    case _ => v
  }

  function PrintAll(vs: seq<Json>): seq<string> {
    if vs == [] then [] else [Print(vs[0])] + PrintAll(vs[1..])
  }

  function PrintMembers(ms: seq<Member<Json>>): seq<Member<string>> {
    if ms == [] then [] else [Member(ms[0].key, Print(ms[0].value))] + PrintMembers(ms[1..])
  }

  /** The text of a value as it stands: nothing is sorted or normalized. */
  function Print(v: Json): string {
    match v
    case Null => "null"
    case Bool(b) => if b then "true" else "false"
    case Num(n) => SignedText(n.negative, Digits(n.coefficient), n.exponent)
    case NotFinite => "?"
    case Str(s) => Quote(s)
    case Arr(items) => "[" + Join(PrintAll(items)) + "]"
    case Obj(ms) => "{" + Join(Entries(PrintMembers(ms))) + "}"
  }

  // ---------- encoding prints the canonical form

  lemma StripZerosAppend(s: string, c: char)
    ensures StripZeros(s + [c]) == if c == '0' then StripZeros(s) else s + [c]
  {
    assert (s + [c])[..|s|] == s;
  }

  /** A trailing zero may move into the exponent before the number is encoded. */
  lemma TenthEncoded(negative: bool, c: nat, e: int)
    requires c >= 10 && c % 10 == 0
    ensures EncodeNumber(Decimal(negative, c, e)) == EncodeNumber(Decimal(negative, c / 10, e + 1))
  {
    TenthDigits(c);
    var k := |StripZeros(Digits(c))|;
    assert e + |Digits(c)| - k == e + 1 + |Digits(c / 10)| - k;
  }

  lemma TenthDigits(c: nat)
    requires c >= 10 && c % 10 == 0
    ensures StripZeros(Digits(c)) == StripZeros(Digits(c / 10)) && |Digits(c)| == |Digits(c / 10)| + 1
  {
    StripZerosAppend(Digits(c / 10), '0');
  }

  lemma LastDigitKept(negative: bool, c: nat, e: int)
    requires c % 10 != 0
    ensures EncodeNumber(Decimal(negative, c, e)) == SignedText(negative, Digits(c), e)
  {
    if c >= 10 {
      StripZerosAppend(Digits(c / 10), Digit(c % 10));
    } else {
      StripZerosAppend("", Digit(c));
      assert "" + [Digit(c)] == [Digit(c)];
    }
  }

  lemma PrintedAs(n: Decimal)
    ensures Print(Num(n)) == SignedText(n.negative, Digits(n.coefficient), n.exponent)
  {
  }

  lemma {:induction false} NumberIsPrinted(negative: bool, c: nat, e: int)
    requires c != 0
    ensures EncodeNumber(Decimal(negative, c, e)) == Print(Num(Normal(Decimal(negative, c, e))))
    decreases c
  {
    var n := Decimal(negative, c, e);
    if c % 10 == 0 {
      assert c >= 10;
      TenthEncoded(negative, c, e);
      NumberIsPrinted(negative, c / 10, e + 1);
      assert Normal(n) == Normal(Decimal(negative, c / 10, e + 1));
    } else {
      LastDigitKept(negative, c, e);
      assert Normal(n) == n;
      PrintedAs(n);
    }
  }

  lemma {:induction false} InsertPrinted(m: Member<Json>, ms: seq<Member<Json>>)
    ensures PrintMembers(Insert(m, ms)) == Insert(Member(m.key, Print(m.value)), PrintMembers(ms))
  {
    if ms == [] || AtMost(m.key, ms[0].key) {
      assert ([m] + ms)[1..] == ms;
    } else {
      InsertPrinted(m, ms[1..]);
      assert ([ms[0]] + Insert(m, ms[1..]))[1..] == Insert(m, ms[1..]);
    }
  }

  lemma {:induction false} SortPrinted(ms: seq<Member<Json>>)
    ensures PrintMembers(SortByKey(ms)) == SortByKey(PrintMembers(ms))
  {
    if ms != [] {
      SortPrinted(ms[1..]);
      InsertPrinted(ms[0], SortByKey(ms[1..]));
    }
  }

  lemma {:induction false} AllPrinted(vs: seq<Json>)
    requires forall i | 0 <= i < |vs| :: WellFormed(vs[i])
    ensures EncodeAll(vs) == PrintAll(CanonAll(vs))
  {
    if vs != [] {
      EncodeIsPrint(vs[0]);
      AllPrinted(vs[1..]);
      assert CanonAll(vs)[1..] == CanonAll(vs[1..]);
    }
  }

  lemma {:induction false} MembersPrinted(ms: seq<Member<Json>>)
    requires forall i | 0 <= i < |ms| :: WellFormed(ms[i].value)
    ensures EncodeMembers(ms) == PrintMembers(CanonMembers(ms))
  {
    if ms != [] {
      EncodeIsPrint(ms[0].value);
      MembersPrinted(ms[1..]);
      assert CanonMembers(ms)[1..] == CanonMembers(ms[1..]);
    }
  }

  lemma {:induction false} EncodeIsPrint(v: Json)
    requires WellFormed(v)
    ensures Encode(v) == Print(Canon(v))
  {
    match v
    case Num(n) =>
      if n.coefficient != 0 {
        NumberIsPrinted(n.negative, n.coefficient, n.exponent);
      } else {
        assert Digits(0) == "0";
      }
    case Arr(items) => AllPrinted(items);
    case Obj(ms) =>
      MembersPrinted(ms);
      SortPrinted(CanonMembers(ms));
    case _ =>
  }

  // ---------- characters

  predicate NumberChar(c: char) {
    '0' <= c <= '9' || c == 'e' || c == '-'
  }

  predicate DigitChar(c: char) {
    '0' <= c <= '9'
  }

  /** What may follow a value: the end, or a delimiter. */
  predicate Delimited(s: string) {
    s == [] || s[0] == ',' || s[0] == ']' || s[0] == '}'
  }

  predicate All(p: string, C: char -> bool) {
    forall i | 0 <= i < |p| :: C(p[i])
  }

  predicate Stops(s: string, C: char -> bool) {
    s == [] || !C(s[0])
  }

  /** A run of a class of characters ends where the class does. */
  lemma {:induction false} Span(p: string, s: string, q: string, t: string, C: char -> bool)
    requires All(p, C) && All(q, C) && Stops(s, C) && Stops(t, C)
    requires p + s == q + t
    ensures p == q && s == t
  {
    if p != [] && q != [] {
      assert (p + s)[0] == p[0] && (q + t)[0] == q[0];
      assert (p + s)[1..] == p[1..] + s && (q + t)[1..] == q[1..] + t;
      Span(p[1..], s, q[1..], t, C);
    } else {
      assert p == [] ==> p + s == s;
      assert q == [] ==> q + t == t;
    }
  }

  /** Equal texts after equal heads. */
  lemma Tails(p: string, s: string, t: string)
    requires p + s == p + t
    ensures s == t
  {
    assert (p + s)[|p|..] == s && (p + t)[|p|..] == t;
  }

  // ---------- numbers

  lemma {:induction false} DigitsAreDigits(n: nat)
    ensures All(Digits(n), DigitChar)
  {
    if n >= 10 {
      DigitsAreDigits(n / 10);
    }
  }

  lemma {:induction false} DigitsInjective(a: nat, b: nat)
    requires Digits(a) == Digits(b)
    ensures a == b
  {
    var x, y := Digits(a), Digits(b);
    assert x[|x| - 1] == Digit(a % 10) && y[|y| - 1] == Digit(b % 10);
    if a >= 10 && b >= 10 {
      assert x[..|x| - 1] == Digits(a / 10) && y[..|y| - 1] == Digits(b / 10);
      DigitsInjective(a / 10, b / 10);
    }
  }

  lemma IntTextInjective(a: int, b: int)
    requires IntText(a) == IntText(b)
    ensures a == b
  {
    DigitsAreDigits(if a < 0 then -a else a);
    DigitsAreDigits(if b < 0 then -b else b);
    assert IntText(a)[0] == '-' <==> a < 0;
    assert IntText(b)[0] == '-' <==> b < 0;
    if a < 0 {
      Tails("-", Digits(-a), Digits(-b));
      DigitsInjective(-a, -b);
    } else {
      DigitsInjective(a, b);
    }
  }

  function ExponentText(e: int): string {
    if e != 0 then "e" + IntText(e) else ""
  }

  lemma UnsignedInjective(c: nat, e: int, d: nat, f: int)
    requires Digits(c) + ExponentText(e) == Digits(d) + ExponentText(f)
    ensures c == d && e == f
  {
    DigitsAreDigits(c);
    DigitsAreDigits(d);
    Span(Digits(c), ExponentText(e), Digits(d), ExponentText(f), DigitChar);
    DigitsInjective(c, d);
    if e != 0 {
      Tails("e", IntText(e), IntText(f));
      IntTextInjective(e, f);
    }
  }

  lemma SignedSplit(n: Decimal)
    ensures Print(Num(n)) == (if n.negative then "-" else "") + (Digits(n.coefficient) + ExponentText(n.exponent))
    ensures Print(Num(n)) != [] && (Print(Num(n))[0] == '-' <==> n.negative)
    ensures All(Print(Num(n)), NumberChar)
  {
    DigitsAreDigits(n.coefficient);
    DigitsAreDigits(if n.exponent < 0 then -n.exponent else n.exponent);
  }

  lemma NumberPrefix(a: Decimal, s: string, b: Decimal, t: string)
    requires Print(Num(a)) + s == Print(Num(b)) + t && Delimited(s) && Delimited(t)
    ensures a == b && s == t
  {
    SignedSplit(a);
    SignedSplit(b);
    Span(Print(Num(a)), s, Print(Num(b)), t, NumberChar);
    Tails(if a.negative then "-" else "", Digits(a.coefficient) + ExponentText(a.exponent), Digits(b.coefficient) + ExponentText(b.exponent));
    UnsignedInjective(a.coefficient, a.exponent, b.coefficient, b.exponent);
  }

  // ---------- strings

  lemma HexInjective(c: nat, d: nat)
    requires c < 16 && d < 16 && Hex(c) == Hex(d)
    ensures c == d
  {
  }

  /** The escape of a character is not a proper prefix of another escape. */
  lemma EscapeCharPrefix(c: char, s: string, d: char, t: string)
    requires EscapeChar(c) + s == EscapeChar(d) + t
    ensures c == d && s == t
  {
    var x, y := EscapeChar(c), EscapeChar(d);
    assert (x + s)[0] == x[0] && (y + t)[0] == y[0];
    assert |x| > 1 && |y| > 1 ==> (x + s)[1] == x[1] && (y + t)[1] == y[1];
    if |x| == 6 && |y| == 6 {
      assert (x + s)[4] == x[4] && (y + t)[4] == y[4];
      assert (x + s)[5] == x[5] && (y + t)[5] == y[5];
      HexInjective(c as nat / 16, d as nat / 16);
      HexInjective(c as nat % 16, d as nat % 16);
    }
    Tails(x, s, t);
  }

  lemma EscapeFirst(a: string, s: string)
    ensures var r := Escape(a) + ("\"" + s); r != [] && (r[0] == '"' <==> a == [])
  {
    if a != [] {
      Regroup(EscapeChar(a[0]), Escape(a[1..]), "\"" + s);
    }
  }

  lemma {:induction false} EscapePrefix(a: string, s: string, b: string, t: string)
    requires Escape(a) + ("\"" + s) == Escape(b) + ("\"" + t)
    ensures a == b && s == t
  {
    var u, v := "\"" + s, "\"" + t;
    EscapeFirst(a, s);
    EscapeFirst(b, t);
    if a == [] && b == [] {
      assert "" + u == u && "" + v == v;
      Tails("\"", s, t);
    } else if a != [] && b != [] {
      Regroup(EscapeChar(a[0]), Escape(a[1..]), u);
      Regroup(EscapeChar(b[0]), Escape(b[1..]), v);
      EscapeCharPrefix(a[0], Escape(a[1..]) + u, b[0], Escape(b[1..]) + v);
      EscapePrefix(a[1..], s, b[1..], t);
    }
  }

  lemma Bracket(open: string, j: string, close: string, s: string)
    ensures (open + j + close) + s == open + (j + (close + s))
  {
  }

  lemma QuotePrefix(a: string, s: string, b: string, t: string)
    requires Quote(a) + s == Quote(b) + t
    ensures a == b && s == t
  {
    Bracket("\"", Escape(a), "\"", s);
    Bracket("\"", Escape(b), "\"", t);
    Tails("\"", Escape(a) + ("\"" + s), Escape(b) + ("\"" + t));
    EscapePrefix(a, s, b, t);
  }

  // ---------- reading strings back

  function HexValue(c: char): Option<nat> {
    if '0' <= c <= '9' then Some((c - '0') as nat)
    else if 'a' <= c <= 'f' then Some((c - 'a') as nat + 10)
    else if 'A' <= c <= 'F' then Some((c - 'A') as nat + 10)
    else None
  }

  /** The character that four hexadecimal digits denote; surrogates denote none alone. */
  function HexChar(s: string): Option<char>
    requires |s| == 4
  {
    var a, b, c, d := HexValue(s[0]), HexValue(s[1]), HexValue(s[2]), HexValue(s[3]);
    if a.None? || b.None? || c.None? || d.None? then None
    else
      var n := ((a.value * 16 + b.value) * 16 + c.value) * 16 + d.value;
      if n < 0xD800 || 0xE000 <= n < 0x10000 then Some(n as char) else None
  }

  function ShortEscape(c: char): Option<char> {
    if c == '"' || c == '\\' || c == '/' then Some(c)
    else if c == 'b' then Some(8 as char) else if c == 'f' then Some(12 as char)
    else if c == 'n' then Some('\n') else if c == 'r' then Some('\r') else if c == 't' then Some('\t')
    else None
  }

  function Prepend(c: Option<char>, s: Option<string>): Option<string> {
    if c.Some? && s.Some? then Some([c.value] + s.value) else None
  }

  /** The inside of a JSON string as section 7 of RFC 8259 reads it. */
  function Unescape(s: string): Option<string>
    decreases |s|
  {
    if s == [] then Some("")
    else if s[0] == '"' || s[0] < ' ' then None
    else if s[0] != '\\' then Prepend(Some(s[0]), Unescape(s[1..]))
    else if |s| == 1 then None
    else if s[1] == 'u' then (if |s| < 6 then None else Prepend(HexChar(s[2..6]), Unescape(s[6..])))
    else Prepend(ShortEscape(s[1]), Unescape(s[2..]))
  }

  /** A character is escaped only where it must be, with two characters where that is possible, and otherwise in lower-case hexadecimal. */
  lemma EscapesShortly(c: char)
    ensures |EscapeChar(c)| == 1 <==> c >= ' ' && c != '"' && c != '\\'
    ensures |EscapeChar(c)| == 2 <==>
      c == '"' || c == '\\' || c == '\n' || c == '\r' || c == '\t' || c == 8 as char || c == 12 as char
    ensures |EscapeChar(c)| > 2 ==> |EscapeChar(c)| == 6 && forall x | x in EscapeChar(c) :: !('A' <= x <= 'F')
  {
  }

  lemma HexDigitsRead(n: nat)
    requires n < 256
    ensures HexChar(['0', '0', Hex(n / 16), Hex(n % 16)]) == Some(n as char)
  {
  }

  lemma UnescapeControl(c: char, t: string)
    requires |EscapeChar(c)| == 6
    ensures Unescape(EscapeChar(c) + t) == Prepend(Some(c), Unescape(t))
  {
    var s := EscapeChar(c) + t;
    assert s[2..6] == ['0', '0', Hex(c as nat / 16), Hex(c as nat % 16)] && s[6..] == t;
    HexDigitsRead(c as nat);
  }

  lemma UnescapeFirst(c: char, t: string)
    ensures Unescape(EscapeChar(c) + t) == Prepend(Some(c), Unescape(t))
  {
    if |EscapeChar(c)| == 6 {
      UnescapeControl(c, t);
    } else {
      assert (EscapeChar(c) + t)[|EscapeChar(c)|..] == t;
    }
  }

  /** A reader of JSON gets every string back. */
  lemma {:induction false} EscapeRoundTrip(s: string)
    ensures Unescape(Escape(s)) == Some(s)
  {
    if s != [] {
      UnescapeFirst(s[0], Escape(s[1..]));
      EscapeRoundTrip(s[1..]);
      assert [s[0]] + s[1..] == s;
    }
  }

  // ---------- values

  datatype Kind = KNull | KTrue | KFalse | KNum | KNotFinite | KStr | KArr | KObj

  function KindOf(v: Json): Kind {
    match v
    case Null => KNull
    case Bool(b) => if b then KTrue else KFalse
    case Num(_) => KNum
    case NotFinite => KNotFinite
    case Str(_) => KStr
    case Arr(_) => KArr
    case Obj(_) => KObj
  }

  function KindOfChar(c: char): Kind {
    if c == 'n' then KNull else if c == 't' then KTrue else if c == 'f' then KFalse
    else if NumberChar(c) then KNum else if c == '"' then KStr else if c == '[' then KArr
    else if c == '{' then KObj else KNotFinite
  }

  /** The first character tells the kind of value. */
  lemma FirstChar(v: Json)
    ensures Print(v) != [] && KindOfChar(Print(v)[0]) == KindOf(v)
    ensures Print(v)[0] != ']' && Print(v)[0] != '}' && Print(v)[0] != ','
  {
    if v.Num? {
      SignedSplit(v.number);
    }
  }

  /** The rest of a list after its first part. */
  function More(parts: seq<string>): string {
    if parts == [] then "" else "," + Join(parts)
  }

  lemma MoreDelimited(parts: seq<string>, close: string, s: string)
    requires close == "]" || close == "}"
    ensures Delimited(More(parts) + (close + s))
    ensures (More(parts) + (close + s))[0] == if parts == [] then close[0] else ','
  {
  }

  /** After a part, both lists go on or both end. */
  lemma MoreTail(ps: seq<string>, s: string, qs: seq<string>, t: string, close: string)
    requires close == "]" || close == "}"
    requires More(ps) + (close + s) == More(qs) + (close + t)
    ensures Join(ps) + (close + s) == Join(qs) + (close + t)
  {
    MoreDelimited(ps, close, s);
    MoreDelimited(qs, close, t);
    if ps != [] {
      Regroup(",", Join(ps), close + s);
      Regroup(",", Join(qs), close + t);
      Tails(",", Join(ps) + (close + s), Join(qs) + (close + t));
    }
  }

  lemma JoinFirst(p: string, parts: seq<string>, s: string)
    ensures Join([p] + parts) + s == p + (More(parts) + s)
  {
    assert ([p] + parts)[1..] == parts;
    Regroup(p, More(parts), s);
  }

  lemma ItemsFirst(xs: seq<Json>, s: string)
    ensures var r := Join(PrintAll(xs)) + ("]" + s); r != [] && (r[0] == ']' <==> xs == [])
  {
    if xs != [] {
      FirstChar(xs[0]);
      JoinFirst(Print(xs[0]), PrintAll(xs[1..]), "]" + s);
    }
  }

  lemma {:induction false} ItemsPrefix(xs: seq<Json>, s: string, ys: seq<Json>, t: string)
    requires Join(PrintAll(xs)) + ("]" + s) == Join(PrintAll(ys)) + ("]" + t)
    ensures xs == ys && s == t
    decreases xs, 0
  {
    var u, v := "]" + s, "]" + t;
    ItemsFirst(xs, s);
    ItemsFirst(ys, t);
    if xs == [] && ys == [] {
      assert "" + u == u && "" + v == v;
      Tails("]", s, t);
    } else if xs != [] && ys != [] {
      JoinFirst(Print(xs[0]), PrintAll(xs[1..]), u);
      JoinFirst(Print(ys[0]), PrintAll(ys[1..]), v);
      MoreDelimited(PrintAll(xs[1..]), "]", s);
      MoreDelimited(PrintAll(ys[1..]), "]", t);
      PrintPrefix(xs[0], More(PrintAll(xs[1..])) + u, ys[0], More(PrintAll(ys[1..])) + v);
      MoreTail(PrintAll(xs[1..]), s, PrintAll(ys[1..]), t, "]");
      ItemsPrefix(xs[1..], s, ys[1..], t);
      assert xs == [xs[0]] + xs[1..] && ys == [ys[0]] + ys[1..];
    }
  }

  lemma EntriesFirst(ms: seq<Member<Json>>)
    requires ms != []
    ensures Entries(PrintMembers(ms)) == [Quote(ms[0].key) + ":" + Print(ms[0].value)] + Entries(PrintMembers(ms[1..]))
  {
    assert PrintMembers(ms)[1..] == PrintMembers(ms[1..]);
  }

  lemma EntryPrefix(x: Member<Json>, m: string, y: Member<Json>, n: string)
    requires Quote(x.key) + (":" + (Print(x.value) + m)) == Quote(y.key) + (":" + (Print(y.value) + n))
    requires Delimited(m) && Delimited(n)
    ensures x == y && m == n
    decreases x, 1
  {
    QuotePrefix(x.key, ":" + (Print(x.value) + m), y.key, ":" + (Print(y.value) + n));
    Tails(":", Print(x.value) + m, Print(y.value) + n);
    PrintPrefix(x.value, m, y.value, n);
  }

  lemma {:induction false} MembersPrefix(xs: seq<Member<Json>>, s: string, ys: seq<Member<Json>>, t: string)
    requires Join(Entries(PrintMembers(xs))) + ("}" + s) == Join(Entries(PrintMembers(ys))) + ("}" + t)
    ensures xs == ys && s == t
    decreases xs, 0
  {
    var u, v := "}" + s, "}" + t;
    MembersFirst(xs, s);
    MembersFirst(ys, t);
    if xs == [] && ys == [] {
      assert "" + u == u && "" + v == v;
      Tails("}", s, t);
    } else if xs != [] && ys != [] {
      var m, n := More(Entries(PrintMembers(xs[1..]))) + u, More(Entries(PrintMembers(ys[1..]))) + v;
      MemberFirst(xs, u);
      MemberFirst(ys, v);
      MoreDelimited(Entries(PrintMembers(xs[1..])), "}", s);
      MoreDelimited(Entries(PrintMembers(ys[1..])), "}", t);
      EntryPrefix(xs[0], m, ys[0], n);
      MoreTail(Entries(PrintMembers(xs[1..])), s, Entries(PrintMembers(ys[1..])), t, "}");
      MembersPrefix(xs[1..], s, ys[1..], t);
      assert xs == [xs[0]] + xs[1..] && ys == [ys[0]] + ys[1..];
    }
  }

  lemma MembersFirst(xs: seq<Member<Json>>, s: string)
    ensures var r := Join(Entries(PrintMembers(xs))) + ("}" + s); r != [] && (r[0] == '}' <==> xs == [])
  {
    if xs != [] {
      MemberFirst(xs, "}" + s);
    }
  }

  lemma MemberFirst(ms: seq<Member<Json>>, u: string)
    requires ms != []
    ensures Join(Entries(PrintMembers(ms))) + u
      == Quote(ms[0].key) + (":" + (Print(ms[0].value) + (More(Entries(PrintMembers(ms[1..]))) + u)))
  {
    EntriesFirst(ms);
    var k, p, m := Quote(ms[0].key), Print(ms[0].value), More(Entries(PrintMembers(ms[1..]))) + u;
    JoinFirst(k + ":" + p, Entries(PrintMembers(ms[1..])), u);
    Regroup(k + ":", p, m);
    Regroup(k, ":", p + m);
  }

  /** A printed value is known from any text that continues it with a delimiter, and so is the rest. */
  lemma {:induction false} PrintPrefix(a: Json, s: string, b: Json, t: string)
    requires Print(a) + s == Print(b) + t && Delimited(s) && Delimited(t)
    ensures a == b && s == t
    decreases a, 1
  {
    FirstChar(a);
    FirstChar(b);
    assert (Print(a) + s)[0] == Print(a)[0] && (Print(b) + t)[0] == Print(b)[0];
    assert KindOf(a) == KindOf(b);
    match a
    case Num(x) => NumberPrefix(x, s, b.number, t);
    case Str(x) => QuotePrefix(x, s, b.text, t);
    case Arr(xs) => ArrayPrefix(xs, s, b.items, t);
    case Obj(xs) => ObjectPrefix(xs, s, b.members, t);
    case _ => Tails(Print(a), s, t);
  }

  lemma ArrayPrefix(xs: seq<Json>, s: string, ys: seq<Json>, t: string)
    requires Print(Arr(xs)) + s == Print(Arr(ys)) + t
    ensures xs == ys && s == t
    decreases xs, 1
  {
    var j, k := Join(PrintAll(xs)), Join(PrintAll(ys));
    Bracket("[", j, "]", s);
    Bracket("[", k, "]", t);
    Tails("[", j + ("]" + s), k + ("]" + t));
    ItemsPrefix(xs, s, ys, t);
  }

  lemma ObjectPrefix(xs: seq<Member<Json>>, s: string, ys: seq<Member<Json>>, t: string)
    requires Print(Obj(xs)) + s == Print(Obj(ys)) + t
    ensures xs == ys && s == t
    decreases xs, 1
  {
    var j, k := Join(Entries(PrintMembers(xs))), Join(Entries(PrintMembers(ys)));
    Bracket("{", j, "}", s);
    Bracket("{", k, "}", t);
    Tails("{", j + ("}" + s), k + ("}" + t));
    MembersPrefix(xs, s, ys, t);
  }
}
