/**
 What a JSON text denotes, read by the grammar of RFC 8259, and that the canonical text of a value
 denotes that value.
 */
module JsonText {
  import opened Options
  import opened CanonicalEncoding
  import opened PrefixCodes
  import opened Fingerprints

  // ---------- numbers

  function Number10(s: string): nat
    requires All(s, DigitChar)
  {
    if s == [] then 0 else 10 * Number10(s[..|s| - 1]) + (s[|s| - 1] - '0') as nat
  }

  lemma {:induction false} NumberOfDigits(n: nat)
    ensures All(Digits(n), DigitChar) && Number10(Digits(n)) == n
    ensures n != 0 ==> Digits(n)[0] != '0'
    ensures n == 0 ==> Digits(n) == "0"
  {
    DigitsAreDigits(n);
    if n >= 10 {
      NumberOfDigits(n / 10);
      assert Digits(n)[..|Digits(n)| - 1] == Digits(n / 10);
    } else {
      assert Digits(n)[..0] == [];
    }
  }

  /** Section 6 of RFC 8259, without a fraction: a sign, an integer without leading zeros, and possibly an exponent. */
  datatype Numeral = Numeral(negative: bool, digits: string, scaled: bool, down: bool, exponent: string)

  predicate ValidNumeral(p: Numeral) {
    && All(p.digits, DigitChar) && p.digits != "" && (p.digits[0] == '0' ==> |p.digits| == 1)
    && All(p.exponent, DigitChar) && (p.scaled ==> p.exponent != "")
  }

  function Spelling(p: Numeral): string {
    (if p.negative then "-" else "") + p.digits + (if p.scaled then "e" + ((if p.down then "-" else "") + p.exponent) else "")
  }

  function Scale(p: Numeral): int
    requires ValidNumeral(p)
  {
    var e: int := Number10(p.exponent);
    if !p.scaled then 0 else if p.down then -e else e
  }

  function Reading(p: Numeral): real
    requires ValidNumeral(p)
  {
    var magnitude := Magnitude(Number10(p.digits), Scale(p));
    if p.negative then -magnitude else magnitude
  }

  ghost predicate DenotesNumber(s: string, x: real) {
    exists p :: ValidNumeral(p) && s == Spelling(p) && x == Reading(p)
  }

  // ---------- values

  /** The parts with a comma between any two neighbours. */
  function Commas(parts: seq<string>): string {
    if parts == [] then "" else if |parts| == 1 then parts[0] else Commas(parts[..|parts| - 1]) + "," + parts[|parts| - 1]
  }

  ghost predicate DenotesString(s: string, t: string) {
    exists inside :: s == "\"" + inside + "\"" && Unescape(inside) == Some(t)
  }

  /** A member is a string, a colon and a value. */
  predicate IsMember(s: string, key: string, value: string) {
    s == key + ":" + value
  }

  /** The text denotes the value, its members listed in the order of the text. */
  ghost predicate Denotes(s: string, v: Json)
    decreases v
  {
    match v
    case Null => s == "null"
    case Bool(b) => s == if b then "true" else "false"
    case Num(n) => DenotesNumber(s, Value(n))
    case NotFinite => false
    case Str(t) => DenotesString(s, t)
    case Arr(items) =>
      exists parts: seq<string> :: |parts| == |items| && s == "[" + Commas(parts) + "]"
        && forall i | 0 <= i < |items| :: Denotes(parts[i], items[i])
    case Obj(ms) =>
      exists parts: seq<string> :: |parts| == |ms| && s == "{" + Commas(parts) + "}"
        && forall i | 0 <= i < |ms| :: DenotesMember(parts[i], ms[i])
  }

  ghost predicate DenotesMember(s: string, m: Member<Json>)
    decreases m
  {
    exists key, value :: IsMember(s, key, value) && DenotesString(key, m.key) && Denotes(value, m.value)
  }

  // ---------- printing denotes

  lemma {:induction false} JoinIsCommas(first: string, rest: seq<string>)
    ensures Join([first] + rest) == Commas([first] + rest)
    decreases |rest|
  {
    if rest != [] {
      var all := [first] + rest;
      assert all[1..] == rest == [rest[0]] + rest[1..];
      JoinIsCommas(rest[0], rest[1..]);
      CommasFirst(first, rest);
    }
  }

  lemma {:induction false} CommasFirst(first: string, rest: seq<string>)
    requires rest != []
    ensures Commas([first] + rest) == first + ("," + Commas(rest))
    decreases |rest|
  {
    var all := [first] + rest;
    var n := |rest| - 1;
    assert all[..|all| - 1] == [first] + rest[..n] && all[|all| - 1] == rest[n];
    if n > 0 {
      CommasFirst(first, rest[..n]);
      assert (first + ("," + Commas(rest[..n]))) + "," + rest[n] == first + ("," + (Commas(rest[..n]) + "," + rest[n]));
    } else {
      assert rest[..0] == [];
      assert first + "," + rest[0] == first + ("," + rest[0]);
    }
  }

  lemma Joined(parts: seq<string>)
    ensures Join(parts) == Commas(parts)
  {
    if parts != [] {
      assert parts == [parts[0]] + parts[1..];
      JoinIsCommas(parts[0], parts[1..]);
    }
  }

  function NumeralOf(n: Decimal): Numeral {
    Numeral(n.negative, Digits(n.coefficient), n.exponent != 0, n.exponent < 0,
            Digits(if n.exponent < 0 then -n.exponent else n.exponent))
  }

  lemma NumeralReads(n: Decimal)
    ensures ValidNumeral(NumeralOf(n)) && Reading(NumeralOf(n)) == Value(n)
  {
    NumberOfDigits(n.coefficient);
    NumberOfDigits(if n.exponent < 0 then -n.exponent else n.exponent);
    assert Scale(NumeralOf(n)) == n.exponent;
  }

  lemma NumberDenotes(n: Decimal)
    ensures DenotesNumber(Print(Num(n)), Value(n))
  {
    NumeralReads(n);
    assert n.exponent >= 0 ==> "" + Digits(n.exponent) == Digits(n.exponent);
    assert Spelling(NumeralOf(n)) == Print(Num(n));
  }

  lemma QuoteDenotes(t: string)
    ensures DenotesString(Quote(t), t)
  {
    EscapeRoundTrip(t);
    assert Quote(t) == "\"" + Escape(t) + "\"";
  }

  lemma {:induction false} PrintedItems(vs: seq<Json>)
    requires forall i | 0 <= i < |vs| :: Finite(vs[i])
    ensures |PrintAll(vs)| == |vs| && forall i | 0 <= i < |vs| :: Denotes(PrintAll(vs)[i], vs[i])
  {
    if vs != [] {
      PrintDenotes(vs[0]);
      PrintedItems(vs[1..]);
      assert forall i | 1 <= i < |vs| :: PrintAll(vs)[i] == PrintAll(vs[1..])[i - 1] && vs[i] == vs[1..][i - 1];
    }
  }

  lemma {:induction false} PrintedMembers(ms: seq<Member<Json>>)
    requires forall i | 0 <= i < |ms| :: Finite(ms[i].value)
    ensures var parts := Entries(PrintMembers(ms));
      |parts| == |ms| && forall i | 0 <= i < |ms| :: DenotesMember(parts[i], ms[i])
  {
    if ms != [] {
      var parts, rest := Entries(PrintMembers(ms)), Entries(PrintMembers(ms[1..]));
      EntriesFirst(ms);
      QuoteDenotes(ms[0].key);
      PrintDenotes(ms[0].value);
      assert IsMember(parts[0], Quote(ms[0].key), Print(ms[0].value));
      PrintedMembers(ms[1..]);
      forall i | 0 <= i < |ms| ensures DenotesMember(parts[i], ms[i]) {
        assert i > 0 ==> parts[i] == rest[i - 1] && ms[i] == ms[1..][i - 1];
      }
    }
  }

  lemma {:induction false} PrintDenotes(v: Json)
    requires Finite(v)
    ensures Denotes(Print(v), v)
  {
    match v
    case Num(n) => NumberDenotes(n);
    case Str(t) => QuoteDenotes(t);
    case Arr(items) =>
      PrintedItems(items);
      Joined(PrintAll(items));
    case Obj(ms) =>
      PrintedMembers(ms);
      Joined(Entries(PrintMembers(ms)));
    case _ =>
  }

  // ---------- the canonical form is the same value

  lemma {:induction false} CanonSame(v: Json)
    requires WellFormed(v)
    ensures Finite(Canon(v)) && Same(Canon(v), v)
  {
    match v
    case Num(n) => NormalValue(n);
    case Arr(items) =>
      forall i | 0 <= i < |items| ensures Finite(Canon(items[i])) && Same(Canon(items[i]), items[i]) {
        CanonSame(items[i]);
      }
    case Obj(ms) =>
      forall i | 0 <= i < |ms| ensures Finite(Canon(ms[i].value)) && Same(Canon(ms[i].value), ms[i].value) {
        CanonSame(ms[i].value);
      }
      SortedFinite(ms);
      SortedSame(ms, SortByKey(CanonMembers(ms)));
    case _ =>
  }

  /** A sorted member is one of the canonical members. */
  lemma SortedFrom(ms: seq<Member<Json>>, i: nat) returns (k: nat)
    requires i < |SortByKey(CanonMembers(ms))|
    ensures k < |ms| && SortByKey(CanonMembers(ms))[i] == Member(ms[k].key, Canon(ms[k].value))
  {
    SortMembers(CanonMembers(ms));
    assert SortByKey(CanonMembers(ms))[i] in CanonMembers(ms);
    k :| 0 <= k < |ms| && CanonMembers(ms)[k] == SortByKey(CanonMembers(ms))[i];
  }

  lemma SortedHas(ms: seq<Member<Json>>, j: nat)
    requires j < |ms|
    ensures HasKey(SortByKey(CanonMembers(ms)), ms[j].key)
  {
    SortMembers(CanonMembers(ms));
    assert CanonMembers(ms)[j] in SortByKey(CanonMembers(ms));
    var i :| 0 <= i < |SortByKey(CanonMembers(ms))| && SortByKey(CanonMembers(ms))[i] == CanonMembers(ms)[j];
  }

  /** Every canonical value is finite and the same as the member's. */
  ghost predicate CanonFaithful(ms: seq<Member<Json>>) {
    forall i | 0 <= i < |ms| :: Finite(Canon(ms[i].value)) && Same(Canon(ms[i].value), ms[i].value)
  }

  lemma SortedValue(ms: seq<Member<Json>>, i: nat, j: nat)
    requires UniqueKeys(ms) && CanonFaithful(ms) && i < |SortByKey(CanonMembers(ms))| && j < |ms|
    requires SortByKey(CanonMembers(ms))[i].key == ms[j].key
    ensures Same(SortByKey(CanonMembers(ms))[i].value, ms[j].value)
  {
    var k := SortedFrom(ms, i);
    assert k == j;
  }

  lemma SortedFinite(ms: seq<Member<Json>>)
    requires CanonFaithful(ms)
    ensures Finite(Obj(SortByKey(CanonMembers(ms))))
  {
    var xs := SortByKey(CanonMembers(ms));
    forall i | 0 <= i < |xs| ensures Finite(xs[i].value) {
      var k := SortedFrom(ms, i);
    }
  }

  lemma SortedKnown(ms: seq<Member<Json>>, i: nat)
    requires i < |SortByKey(CanonMembers(ms))|
    ensures HasKey(ms, SortByKey(CanonMembers(ms))[i].key)
  {
    var k := SortedFrom(ms, i);
    assert ms[k].key == SortByKey(CanonMembers(ms))[i].key;
  }

  lemma SortedSame(ms: seq<Member<Json>>, xs: seq<Member<Json>>)
    requires UniqueKeys(ms) && CanonFaithful(ms) && xs == SortByKey(CanonMembers(ms))
    ensures Same(Obj(xs), Obj(ms))
  {
    forall j | 0 <= j < |ms| ensures HasKey(xs, ms[j].key) {
      SortedHas(ms, j);
    }
    forall i | 0 <= i < |xs| ensures HasKey(ms, xs[i].key) {
      SortedKnown(ms, i);
    }
    forall i, j | 0 <= i < |xs| && 0 <= j < |ms| && xs[i].key == ms[j].key ensures Same(xs[i].value, ms[j].value) {
      SortedValue(ms, i, j);
    }
  }

  /** A reader of JSON gets from the canonical text the value it was made from, with the members in the order of their keys. */
  lemma EncodeDenotes(v: Json)
    requires WellFormed(v)
    ensures exists c :: Denotes(Encode(v), c) && Same(c, v)
  {
    EncodeIsPrint(v);
    CanonSame(v);
    PrintDenotes(Canon(v));
  }

  /** The text of a number denotes it. */
  lemma EncodeNumberDenotes(n: Decimal)
    ensures DenotesNumber(EncodeNumber(n), Value(n))
  {
    EncodeIsPrint(Num(n));
    NormalValue(n);
    NumberDenotes(Normal(n));
  }
}
