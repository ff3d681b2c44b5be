/**
 The canonical text of a JSON value that idempotency fingerprints hash. The text is injective up to
 numeric equality and the order of object members, even inside a longer text.
 */
module CanonicalEncoding {
  import opened Options

  datatype Member<V> = Member(key: string, value: V)

  /** A finite decimal `(-1)^negative * coefficient * 10^exponent`. */
  datatype Decimal = Decimal(negative: bool, coefficient: nat, exponent: int)

  datatype Json =
    | Null
    | Bool(b: bool)
    | Num(number: Decimal)
    | NotFinite
    | Str(text: string)
    | Arr(items: seq<Json>)
    | Obj(members: seq<Member<Json>>)

  /** A dictionary: no two members share a key. */
  predicate UniqueKeys<V>(ms: seq<Member<V>>) {
    forall i, j | 0 <= i < j < |ms| :: ms[i].key != ms[j].key
  }

  /** Every object is a dictionary, at every depth. */
  predicate Dictionaries(v: Json) {
    match v
    case Arr(items) => forall i | 0 <= i < |items| :: Dictionaries(items[i])
    case Obj(ms) => UniqueKeys(ms) && forall i | 0 <= i < |ms| :: Dictionaries(ms[i].value)
    case _ => true
  }

  /** No number is an infinity or not a number, at any depth. */
  predicate Finite(v: Json) {
    match v
    case NotFinite => false
    case Arr(items) => forall i | 0 <= i < |items| :: Finite(items[i])
    case Obj(ms) => forall i | 0 <= i < |ms| :: Finite(ms[i].value)
    case _ => true
  }

  predicate WellFormed(v: Json) {
    Dictionaries(v) && Finite(v)
  }

  // ---------- when two values are the same

  function Pow10(e: int): (r: real)
    ensures r > 0.0
    decreases if e < 0 then -e else e
  {
    if e == 0 then 1.0 else if e > 0 then 10.0 * Pow10(e - 1) else Pow10(e + 1) / 10.0
  }

  function Magnitude(c: nat, e: int): (r: real)
    ensures r >= 0.0 && (r == 0.0 <==> c == 0)
  {
    c as real * Pow10(e)
  }

  function Value(n: Decimal): real {
    if n.negative then -Magnitude(n.coefficient, n.exponent) else Magnitude(n.coefficient, n.exponent)
  }

  /** Equal as data: numbers by their value, objects by their keys and what these map to. */
  predicate Same(a: Json, b: Json) {
    match (a, b)
    case (Null, Null) => true
    case (Bool(x), Bool(y)) => x == y
    case (Num(x), Num(y)) => Value(x) == Value(y)
    case (Str(x), Str(y)) => x == y
    case (Arr(xs), Arr(ys)) => |xs| == |ys| && forall i | 0 <= i < |xs| :: Same(xs[i], ys[i])
    case (Obj(xs), Obj(ys)) =>
      && (forall i | 0 <= i < |xs| :: HasKey(ys, xs[i].key))
      && (forall j | 0 <= j < |ys| :: HasKey(xs, ys[j].key))
      && (forall i, j | 0 <= i < |xs| && 0 <= j < |ys| && xs[i].key == ys[j].key :: Same(xs[i].value, ys[j].value))
    case _ => false
  }

  predicate HasKey<V>(ms: seq<Member<V>>, key: string) {
    exists i | 0 <= i < |ms| :: ms[i].key == key
  }

  // ---------- the text

  function Digit(d: nat): char
    requires d < 10
  {
    '0' + d as char
  }

  function Digits(n: nat): (r: string)
    ensures r != []
  {
    if n < 10 then [Digit(n)] else Digits(n / 10) + [Digit(n % 10)]
  }

  function IntText(n: int): string {
    if n < 0 then "-" + Digits(-n) else Digits(n)
  }

  /** The text without trailing zeros. */
  function StripZeros(s: string): (r: string)
    ensures |r| <= |s|
  {
    if s != [] && s[|s| - 1] == '0' then StripZeros(s[..|s| - 1]) else s
  }

  function SignedText(negative: bool, significant: string, exponent: int): string {
    (if negative then "-" else "") + significant + (if exponent != 0 then "e" + IntText(exponent) else "")
  }

  function EncodeNumber(n: Decimal): string {
    if n.coefficient == 0 then "0"
    else
      var coefficient := Digits(n.coefficient);
      var significant := StripZeros(coefficient);
      SignedText(n.negative, significant, n.exponent + |coefficient| - |significant|)
  }

  function Hex(d: nat): char
    requires d < 16
  {
    if d < 10 then Digit(d) else 'a' + (d - 10) as char
  }

  /** Section 7 of RFC 8259: the short escapes where they exist, `\u00XX` for the other control characters. */
  function EscapeChar(c: char): string {
    if c == '"' then "\\\"" else if c == '\\' then "\\\\"
    else if c == '\n' then "\\n" else if c == '\r' then "\\r" else if c == '\t' then "\\t"
    else if c == 8 as char then "\\b" else if c == 12 as char then "\\f"
    else if c < ' ' then "\\u00" + [Hex(c as nat / 16), Hex(c as nat % 16)]
    else [c]
  }

  function Escape(s: string): string {
    if s == [] then "" else EscapeChar(s[0]) + Escape(s[1..])
  }

  function Quote(s: string): string {
    "\"" + Escape(s) + "\""
  }

  function Join(parts: seq<string>): string {
    if parts == [] then "" else if |parts| == 1 then parts[0] else parts[0] + "," + Join(parts[1..])
  }

  /** Python's order of strings: the first differing code point decides, a prefix comes first. */
  predicate AtMost(a: string, b: string) {
    a == [] || (b != [] && (a[0] < b[0] || (a[0] == b[0] && AtMost(a[1..], b[1..]))))
  }

  function Insert<V>(m: Member<V>, ms: seq<Member<V>>): seq<Member<V>> {
    if ms == [] || AtMost(m.key, ms[0].key) then [m] + ms else [ms[0]] + Insert(m, ms[1..])
  }

  function SortByKey<V>(ms: seq<Member<V>>): seq<Member<V>> {
    if ms == [] then [] else Insert(ms[0], SortByKey(ms[1..]))
  }

  /** Each member as its quoted key, a colon and its value's text. */
  function Entries(ms: seq<Member<string>>): seq<string> {
    if ms == [] then [] else [Quote(ms[0].key) + ":" + ms[0].value] + Entries(ms[1..])
  }

  function EncodeAll(vs: seq<Json>): seq<string>
    requires forall i | 0 <= i < |vs| :: WellFormed(vs[i])
  {
    if vs == [] then [] else [Encode(vs[0])] + EncodeAll(vs[1..])
  }

  function EncodeMembers(ms: seq<Member<Json>>): seq<Member<string>>
    requires forall i | 0 <= i < |ms| :: WellFormed(ms[i].value)
  {
    if ms == [] then [] else [Member(ms[0].key, Encode(ms[0].value))] + EncodeMembers(ms[1..])
  }

  function Encode(v: Json): string
    requires WellFormed(v)
  {
    match v
    case Null => "null"
    case Bool(b) => if b then "true" else "false"
    case Num(n) => EncodeNumber(n)
    case Str(s) => Quote(s)
    case Arr(items) => "[" + Join(EncodeAll(items)) + "]"
    case Obj(ms) => "{" + Join(Entries(SortByKey(EncodeMembers(ms)))) + "}"
  }

  /** The text to hash; a value with a number that is not finite is refused. */
  function Fingerprint(v: Json): Option<string>
    requires Dictionaries(v)
  {
    if Finite(v) then Some(Encode(v)) else None
  }

  // ---------- request models

  /** A field of a validated request model: its public name, whether the request set it, and its value. */
  datatype Field = Field(alias: string, given: bool, value: Json)

  /** Fields that were neither given nor have a non-null default are left out. */
  predicate Kept(f: Field) {
    f.given || f.value != Null
  }

  function KeptMembers(fs: seq<Field>): seq<Member<Json>> {
    if fs == [] then []
    else (if Kept(fs[0]) then [Member(fs[0].alias, fs[0].value)] else []) + KeptMembers(fs[1..])
  }

  function Normalized(fs: seq<Field>): Json {
    Obj(KeptMembers(fs))
  }
}
