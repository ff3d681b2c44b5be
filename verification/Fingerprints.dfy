/**
 What a fingerprint identifies. The hash of the canonical text is taken to be injective, so two
 values have one fingerprint exactly if they have one text.
 */
module Fingerprints {
  import opened Options
  import opened CanonicalEncoding
  import opened PrefixCodes

  // ---------- numbers

  lemma MagnitudeShift(c: nat, e: int)
    ensures Magnitude(10 * c, e) == Magnitude(c, e + 1)
  {
    assert Pow10(e + 1) == 10.0 * Pow10(e);
    var x, p := c as real, Pow10(e);
    assert (10.0 * x) * p == x * (10.0 * p);
    assert (10 * c) as real == 10.0 * x;
  }

  lemma {:induction false} NormalValue(n: Decimal)
    ensures Value(Normal(n)) == Value(n)
    ensures Normal(n).coefficient == 0 ==> Normal(n) == Decimal(false, 0, 0)
    ensures Normal(n).coefficient != 0 ==> Normal(n).coefficient % 10 != 0
    decreases n.coefficient
  {
    if n.coefficient != 0 && n.coefficient % 10 == 0 {
      NormalValue(n.(coefficient := n.coefficient / 10, exponent := n.exponent + 1));
      MagnitudeShift(n.coefficient / 10, n.exponent);
    }
  }

  function NatPow10(k: nat): nat {
    if k == 0 then 1 else 10 * NatPow10(k - 1)
  }

  lemma {:induction false} MagnitudeSplit(c: nat, e: int, k: nat)
    ensures Magnitude(c, e + k) == Magnitude(c * NatPow10(k), e)
    decreases k
  {
    if k > 0 {
      MagnitudeShift(c, e + k - 1);
      MagnitudeSplit(10 * c, e, k - 1);
      assert 10 * c * NatPow10(k - 1) == c * NatPow10(k);
    }
  }

  lemma SameExponent(c: nat, d: nat, e: int)
    requires Magnitude(c, e) == Magnitude(d, e)
    ensures c == d
  {
    var p := Pow10(e);
    assert (c as real - d as real) * p == 0.0;
  }

  lemma MagnitudeUnique(c: nat, e: int, d: nat, f: int)
    requires c % 10 != 0 && d % 10 != 0 && e >= f
    requires Magnitude(c, e) == Magnitude(d, f)
    ensures c == d && e == f
  {
    MagnitudeSplit(c, f, e - f);
    SameExponent(c * NatPow10(e - f), d, f);
    if e > f {
      PowerOfTen(c, e - f);
    }
  }

  lemma PowerOfTen(c: nat, k: nat)
    requires k > 0
    ensures (c * NatPow10(k)) % 10 == 0
  {
    assert c * NatPow10(k) == 10 * (c * NatPow10(k - 1));
  }

  /** Two decimals have one normal form exactly if they are the same number. */
  lemma NormalIffEqual(a: Decimal, b: Decimal)
    ensures Normal(a) == Normal(b) <==> Value(a) == Value(b)
  {
    NormalValue(a);
    NormalValue(b);
    var m, n := Normal(a), Normal(b);
    if Value(a) == Value(b) && m.coefficient != 0 {
      if m.exponent >= n.exponent {
        MagnitudeUnique(m.coefficient, m.exponent, n.coefficient, n.exponent);
      } else {
        MagnitudeUnique(n.coefficient, n.exponent, m.coefficient, m.exponent);
      }
    }
  }

  // ---------- the order of members

  lemma {:induction false} AtMostTotal(a: string, b: string)
    ensures AtMost(a, b) || AtMost(b, a)
    ensures AtMost(a, b) && AtMost(b, a) ==> a == b
  {
    if a != [] && b != [] {
      AtMostTotal(a[1..], b[1..]);
      assert a == [a[0]] + a[1..] && b == [b[0]] + b[1..];
    }
  }

  lemma {:induction false} AtMostTransitive(a: string, b: string, c: string)
    requires AtMost(a, b) && AtMost(b, c)
    ensures AtMost(a, c)
  {
    if a != [] && a[0] == b[0] && b[0] == c[0] {
      AtMostTransitive(a[1..], b[1..], c[1..]);
    }
  }

  /** Keys strictly ascend. */
  ghost predicate Ascending<V(!new)>(ms: seq<Member<V>>) {
    ms != [] ==> (forall m | m in ms[1..] :: AtMost(ms[0].key, m.key) && ms[0].key != m.key) && Ascending(ms[1..])
  }

  lemma {:induction false} InsertMembers<V(!new)>(m: Member<V>, ms: seq<Member<V>>)
    ensures forall x :: x in Insert(m, ms) <==> x == m || x in ms
  {
    if ms != [] && !AtMost(m.key, ms[0].key) {
      InsertMembers(m, ms[1..]);
    }
  }

  lemma {:induction false} SortMembers<V(!new)>(ms: seq<Member<V>>)
    ensures forall x :: x in SortByKey(ms) <==> x in ms
  {
    if ms != [] {
      SortMembers(ms[1..]);
      InsertMembers(ms[0], SortByKey(ms[1..]));
    }
  }

  lemma {:induction false} InsertAscends<V(!new)>(m: Member<V>, ms: seq<Member<V>>)
    requires Ascending(ms) && forall x | x in ms :: x.key != m.key
    ensures Ascending(Insert(m, ms))
  {
    if ms == [] {
    } else if AtMost(m.key, ms[0].key) {
      assert ([m] + ms)[1..] == ms;
      forall x | x in ms ensures AtMost(m.key, x.key) {
        assert x == ms[0] || x in ms[1..];
        if x != ms[0] {
          AtMostTransitive(m.key, ms[0].key, x.key);
        }
      }
    } else {
      AtMostTotal(m.key, ms[0].key);
      InsertAscends(m, ms[1..]);
      InsertMembers(m, ms[1..]);
      assert ([ms[0]] + Insert(m, ms[1..]))[1..] == Insert(m, ms[1..]);
    }
  }

  lemma {:induction false} SortAscends<V(!new)>(ms: seq<Member<V>>)
    requires UniqueKeys(ms)
    ensures Ascending(SortByKey(ms))
  {
    if ms != [] {
      SortAscends(ms[1..]);
      SortMembers(ms[1..]);
      InsertAscends(ms[0], SortByKey(ms[1..]));
    }
  }

  lemma {:induction false} AscendingUnique<V(!new)>(xs: seq<Member<V>>, ys: seq<Member<V>>)
    requires Ascending(xs) && Ascending(ys) && forall x :: x in xs <==> x in ys
    ensures xs == ys
  {
    assert xs != [] ==> xs[0] in ys;
    assert ys != [] ==> ys[0] in xs;
    if xs != [] {
      FirstLeast(xs, ys[0]);
      FirstLeast(ys, xs[0]);
      AtMostTotal(xs[0].key, ys[0].key);
      forall x ensures x in xs[1..] <==> x in ys[1..] {
        assert x in xs <==> x == xs[0] || x in xs[1..];
        assert x in ys <==> x == ys[0] || x in ys[1..];
      }
      AscendingUnique(xs[1..], ys[1..]);
      assert xs == [xs[0]] + xs[1..] && ys == [ys[0]] + ys[1..];
    }
  }

  lemma FirstLeast<V(!new)>(xs: seq<Member<V>>, x: Member<V>)
    requires Ascending(xs) && x in xs
    ensures AtMost(xs[0].key, x.key) && (x.key == xs[0].key ==> x == xs[0])
  {
    assert x == xs[0] || x in xs[1..];
    AtMostTotal(x.key, x.key);
  }

  /** Dictionaries with the same members have the same members in sorted order. */
  lemma SortedAlike<V(!new)>(xs: seq<Member<V>>, ys: seq<Member<V>>)
    requires UniqueKeys(xs) && UniqueKeys(ys)
    ensures SortByKey(xs) == SortByKey(ys) <==> forall x :: x in xs <==> x in ys
  {
    SortMembers(xs);
    SortMembers(ys);
    SortAscends(xs);
    SortAscends(ys);
    if forall x :: x in xs <==> x in ys {
      AscendingUnique(SortByKey(xs), SortByKey(ys));
    }
  }

  // ---------- canonical forms

  lemma ItemsAlike(xs: seq<Json>, ys: seq<Json>)
    ensures CanonAll(xs) == CanonAll(ys) <==> |xs| == |ys| && forall i | 0 <= i < |xs| :: Canon(xs[i]) == Canon(ys[i])
  {
    if CanonAll(xs) == CanonAll(ys) {
      assert forall i | 0 <= i < |xs| :: Canon(xs[i]) == CanonAll(xs)[i] == CanonAll(ys)[i];
    }
  }

  /** Two values have one canonical form exactly if they are the same data. */
  lemma {:induction false} CanonIffSame(a: Json, b: Json)
    requires WellFormed(a) && WellFormed(b)
    ensures Canon(a) == Canon(b) <==> Same(a, b)
  {
    match (a, b)
    case (Num(x), Num(y)) => NormalIffEqual(x, y);
    case (Arr(xs), Arr(ys)) =>
      forall i | 0 <= i < |xs| && i < |ys| ensures Canon(xs[i]) == Canon(ys[i]) <==> Same(xs[i], ys[i]) {
        CanonIffSame(xs[i], ys[i]);
      }
      ItemsAlike(xs, ys);
    case (Obj(xs), Obj(ys)) =>
      forall i, j | 0 <= i < |xs| && 0 <= j < |ys| ensures Canon(xs[i].value) == Canon(ys[j].value) <==> Same(xs[i].value, ys[j].value) {
        CanonIffSame(xs[i].value, ys[j].value);
      }
      ObjectsAlike(xs, ys);
    case _ =>
  }

  /** Two member values have one canonical form exactly if they are the same data. */
  ghost predicate ComparedByCanon(xs: seq<Member<Json>>, ys: seq<Member<Json>>) {
    forall i, j | 0 <= i < |xs| && 0 <= j < |ys| :: Canon(xs[i].value) == Canon(ys[j].value) <==> Same(xs[i].value, ys[j].value)
  }

  lemma SameObjects(xs: seq<Member<Json>>, ys: seq<Member<Json>>)
    requires ComparedByCanon(xs, ys) && Same(Obj(xs), Obj(ys))
    ensures forall m :: m in CanonMembers(xs) <==> m in CanonMembers(ys)
  {
    MembersIncluded(xs, ys);
    MembersIncluded(ys, xs);
  }

  lemma FoundObjects(xs: seq<Member<Json>>, ys: seq<Member<Json>>)
    requires UniqueKeys(xs) && UniqueKeys(ys) && ComparedByCanon(xs, ys)
    requires forall m :: m in CanonMembers(xs) <==> m in CanonMembers(ys)
    ensures Same(Obj(xs), Obj(ys))
  {
    MembersFound(xs, ys);
    MembersFound(ys, xs);
  }

  lemma ObjectsAlike(xs: seq<Member<Json>>, ys: seq<Member<Json>>)
    requires UniqueKeys(xs) && UniqueKeys(ys) && ComparedByCanon(xs, ys)
    ensures SortByKey(CanonMembers(xs)) == SortByKey(CanonMembers(ys)) <==> Same(Obj(xs), Obj(ys))
  {
    SortedAlike(CanonMembers(xs), CanonMembers(ys));
    if Same(Obj(xs), Obj(ys)) {
      SameObjects(xs, ys);
    } else if forall m :: m in CanonMembers(xs) <==> m in CanonMembers(ys) {
      FoundObjects(xs, ys);
    }
  }

  /** Members with the keys of the other dictionary and the same values under them are members of it. */
  lemma MembersIncluded(xs: seq<Member<Json>>, ys: seq<Member<Json>>)
    requires forall i | 0 <= i < |xs| :: HasKey(ys, xs[i].key)
    requires forall i, j | 0 <= i < |xs| && 0 <= j < |ys| && xs[i].key == ys[j].key :: Canon(xs[i].value) == Canon(ys[j].value)
    ensures forall m | m in CanonMembers(xs) :: m in CanonMembers(ys)
  {
    forall m | m in CanonMembers(xs) ensures m in CanonMembers(ys) {
      var i :| 0 <= i < |xs| && CanonMembers(xs)[i] == m;
      assert HasKey(ys, xs[i].key);
      var j :| 0 <= j < |ys| && ys[j].key == xs[i].key;
      assert CanonMembers(ys)[j] == m;
    }
  }

  lemma MembersFound(xs: seq<Member<Json>>, ys: seq<Member<Json>>)
    requires UniqueKeys(ys) && forall m | m in CanonMembers(xs) :: m in CanonMembers(ys)
    ensures forall i | 0 <= i < |xs| :: HasKey(ys, xs[i].key)
    ensures forall i, j | 0 <= i < |xs| && 0 <= j < |ys| && xs[i].key == ys[j].key :: Canon(xs[i].value) == Canon(ys[j].value)
  {
    forall i | 0 <= i < |xs|
      ensures HasKey(ys, xs[i].key)
      ensures forall j | 0 <= j < |ys| && xs[i].key == ys[j].key :: Canon(xs[i].value) == Canon(ys[j].value)
    {
      MemberFound(xs[i], ys, CanonMembers(xs)[i]);
    }
  }

  lemma MemberFound(x: Member<Json>, ys: seq<Member<Json>>, m: Member<Json>)
    requires UniqueKeys(ys) && m in CanonMembers(ys) && m == Member(x.key, Canon(x.value))
    ensures HasKey(ys, x.key)
    ensures forall j | 0 <= j < |ys| && x.key == ys[j].key :: Canon(x.value) == Canon(ys[j].value)
  {
    var j :| 0 <= j < |ys| && CanonMembers(ys)[j] == m;
    assert ys[j].key == x.key;
  }

  // ---------- main results

  /** The text, also inside a longer one, identifies the value, and its end is found. */
  lemma EncodePrefixInjective(a: Json, s: string, b: Json, t: string)
    requires WellFormed(a) && WellFormed(b) && Delimited(s) && Delimited(t)
    requires Encode(a) + s == Encode(b) + t
    ensures Same(a, b) && s == t
  {
    EncodeIsPrint(a);
    EncodeIsPrint(b);
    PrintPrefix(Canon(a), s, Canon(b), t);
    CanonIffSame(a, b);
  }

  /** Two values have one text exactly if they are the same data. */
  lemma EncodeIffSame(a: Json, b: Json)
    requires WellFormed(a) && WellFormed(b)
    ensures Encode(a) == Encode(b) <==> Same(a, b)
  {
    if Encode(a) == Encode(b) {
      assert Encode(a) + "" == Encode(b) + "";
      EncodePrefixInjective(a, "", b, "");
    }
    EncodeIsPrint(a);
    EncodeIsPrint(b);
    CanonIffSame(a, b);
  }

  /** Being the same data is an equivalence. */
  lemma SameIsAnEquivalence(a: Json, b: Json, c: Json)
    requires WellFormed(a) && WellFormed(b) && WellFormed(c)
    ensures Same(a, a)
    ensures Same(a, b) <==> Same(b, a)
    ensures Same(a, b) && Same(b, c) ==> Same(a, c)
  {
    CanonIffSame(a, a);
    CanonIffSame(a, b);
    CanonIffSame(b, a);
    CanonIffSame(b, c);
    CanonIffSame(a, c);
  }

  /** Rearranging the members of an object leaves its text as it is. */
  lemma PermutedMembers(xs: seq<Member<Json>>, ys: seq<Member<Json>>)
    requires multiset(xs) == multiset(ys) && WellFormed(Obj(xs)) && WellFormed(Obj(ys))
    ensures Encode(Obj(xs)) == Encode(Obj(ys))
  {
    SameSets(xs, ys);
    SameSets(ys, xs);
    EncodeIsPrint(Obj(xs));
    EncodeIsPrint(Obj(ys));
    SortedAlike(CanonMembers(xs), CanonMembers(ys));
  }

  lemma SameSets(xs: seq<Member<Json>>, ys: seq<Member<Json>>)
    requires multiset(xs) == multiset(ys)
    ensures forall m | m in CanonMembers(xs) :: m in CanonMembers(ys)
  {
    forall m | m in CanonMembers(xs) ensures m in CanonMembers(ys) {
      var i :| 0 <= i < |xs| && CanonMembers(xs)[i] == m;
      assert xs[i] in multiset(ys);
      var j :| 0 <= j < |ys| && ys[j] == xs[i];
      assert CanonMembers(ys)[j] == m;
    }
  }

  /** The fingerprints of two values are equal exactly if the values are the same data; there is none for a number that is not finite. */
  lemma FingerprintIffSame(a: Json, b: Json)
    requires Dictionaries(a) && Dictionaries(b)
    ensures Fingerprint(a) == Fingerprint(b) && Fingerprint(a).Some? <==> Finite(a) && Finite(b) && Same(a, b)
  {
    if Finite(a) && Finite(b) {
      EncodeIffSame(a, b);
    }
  }

  // ---------- request models

  predicate UniqueAliases(fs: seq<Field>) {
    forall i, j | 0 <= i < j < |fs| :: fs[i].alias != fs[j].alias
  }

  ghost predicate FieldsWellFormed(fs: seq<Field>) {
    UniqueAliases(fs) && forall i | 0 <= i < |fs| :: WellFormed(fs[i].value)
  }

  /** The `i`-th field is kept as the member `m`. */
  predicate KeptAs(fs: seq<Field>, i: int, m: Member<Json>) {
    0 <= i < |fs| && Kept(fs[i]) && m == Member(fs[i].alias, fs[i].value)
  }

  lemma {:induction false} KeptExactly(fs: seq<Field>, m: Member<Json>)
    ensures m in KeptMembers(fs) <==> exists i :: KeptAs(fs, i, m)
  {
    if fs != [] {
      KeptExactly(fs[1..], m);
      if i :| KeptAs(fs[1..], i, m) {
        assert KeptAs(fs, i + 1, m);
      }
      if i :| KeptAs(fs, i, m) {
        assert i == 0 || KeptAs(fs[1..], i - 1, m);
      }
      assert m == Member(fs[0].alias, fs[0].value) && Kept(fs[0]) ==> KeptAs(fs, 0, m);
    }
  }

  lemma {:induction false} NormalizedWellFormed(fs: seq<Field>)
    requires FieldsWellFormed(fs)
    ensures WellFormed(Normalized(fs))
  {
    if fs != [] {
      NormalizedWellFormed(fs[1..]);
      var ms := KeptMembers(fs[1..]);
      forall i | 0 <= i < |ms| ensures ms[i].key != fs[0].alias {
        KeptExactly(fs[1..], ms[i]);
        assert ms[i] in ms;
        var j :| KeptAs(fs[1..], j, ms[i]);
      }
    }
  }

  /** The request did not give the field, and it has no default but null. */
  predicate Omitted(f: Field) {
    !f.given && f.value == Null
  }

  /** Both fields are left out, or neither is and they have the same value. */
  predicate Alike(f: Field, g: Field) {
    (Omitted(f) && Omitted(g)) || (!Omitted(f) && !Omitted(g) && Same(f.value, g.value))
  }

  /** Two requests to one model have one text exactly if each field is left out of both, or of neither and has the same value. */
  lemma FieldsIdentified(fs: seq<Field>, gs: seq<Field>)
    requires FieldsWellFormed(fs) && FieldsWellFormed(gs) && |fs| == |gs|
    requires forall i | 0 <= i < |fs| :: fs[i].alias == gs[i].alias
    ensures WellFormed(Normalized(fs)) && WellFormed(Normalized(gs))
    ensures Encode(Normalized(fs)) == Encode(Normalized(gs)) <==> forall i | 0 <= i < |fs| :: Alike(fs[i], gs[i])
  {
    NormalizedWellFormed(fs);
    NormalizedWellFormed(gs);
    EncodeIffSame(Normalized(fs), Normalized(gs));
    if Same(Normalized(fs), Normalized(gs)) {
      forall i | 0 <= i < |fs| ensures Alike(fs[i], gs[i]) {
        if Kept(fs[i]) {
          KeptAlike(fs, gs, i);
        } else if Kept(gs[i]) {
          KeptAlike(gs, fs, i);
        }
      }
    }
    if forall i | 0 <= i < |fs| :: Alike(fs[i], gs[i]) {
      KeptSame(fs, gs);
    }
  }

  lemma KeptAlike(fs: seq<Field>, gs: seq<Field>, i: nat)
    requires UniqueAliases(gs) && |fs| == |gs| && i < |fs| && Kept(fs[i])
    requires forall i | 0 <= i < |fs| :: fs[i].alias == gs[i].alias
    requires Same(Normalized(fs), Normalized(gs)) || Same(Normalized(gs), Normalized(fs))
    ensures Kept(gs[i])
    ensures Same(Normalized(fs), Normalized(gs)) ==> Same(fs[i].value, gs[i].value)
  {
    var m := Member(fs[i].alias, fs[i].value);
    KeptExactly(fs, m);
    assert KeptAs(fs, i, m);
    var x :| 0 <= x < |KeptMembers(fs)| && KeptMembers(fs)[x] == m;
    assert HasKey(KeptMembers(gs), m.key);
    var y :| 0 <= y < |KeptMembers(gs)| && KeptMembers(gs)[y].key == m.key;
    KeptExactly(gs, KeptMembers(gs)[y]);
    var j :| KeptAs(gs, j, KeptMembers(gs)[y]);
    assert j == i;
  }

  lemma KeptSame(fs: seq<Field>, gs: seq<Field>)
    requires UniqueAliases(fs) && |fs| == |gs|
    requires forall i | 0 <= i < |fs| :: fs[i].alias == gs[i].alias
    requires forall i | 0 <= i < |fs| :: Alike(fs[i], gs[i])
    ensures Same(Normalized(fs), Normalized(gs))
  {
    var xs, ys := KeptMembers(fs), KeptMembers(gs);
    KeptKeys(fs, gs);
    KeptKeys(gs, fs);
    forall x, y | 0 <= x < |xs| && 0 <= y < |ys| && xs[x].key == ys[y].key ensures Same(xs[x].value, ys[y].value) {
      KeptExactly(fs, xs[x]);
      KeptExactly(gs, ys[y]);
      var i :| KeptAs(fs, i, xs[x]);
      var j :| KeptAs(gs, j, ys[y]);
      assert i == j;
    }
  }

  lemma KeptKeys(fs: seq<Field>, gs: seq<Field>)
    requires |fs| == |gs| && forall i | 0 <= i < |fs| :: fs[i].alias == gs[i].alias && Kept(fs[i]) == Kept(gs[i])
    ensures forall x | 0 <= x < |KeptMembers(fs)| :: HasKey(KeptMembers(gs), KeptMembers(fs)[x].key)
  {
    var xs, ys := KeptMembers(fs), KeptMembers(gs);
    forall x | 0 <= x < |xs| ensures HasKey(ys, xs[x].key) {
      KeptExactly(fs, xs[x]);
      var i :| KeptAs(fs, i, xs[x]);
      var m := Member(gs[i].alias, gs[i].value);
      KeptExactly(gs, m);
      assert KeptAs(gs, i, m);
      var y :| 0 <= y < |ys| && ys[y] == m;
    }
  }

  /** A request that gives a field as null differs from one that leaves it out. */
  lemma OmittedDiffersFromNull(fs: seq<Field>, i: nat)
    requires FieldsWellFormed(fs) && i < |fs| && !fs[i].given && fs[i].value == Null
    ensures var gs := fs[i := fs[i].(given := true)];
      && WellFormed(Normalized(fs)) && WellFormed(Normalized(gs))
      && Encode(Normalized(fs)) != Encode(Normalized(gs))
  {
    var gs := fs[i := fs[i].(given := true)];
    FieldsIdentified(fs, gs);
    assert !Alike(fs[i], gs[i]);
  }

  /** A default that is not null reads as if the request had given it. */
  lemma DefaultReadsAsGiven(fs: seq<Field>, i: nat)
    requires FieldsWellFormed(fs) && i < |fs| && !fs[i].given && fs[i].value != Null
    ensures var gs := fs[i := fs[i].(given := true)];
      && WellFormed(Normalized(fs)) && WellFormed(Normalized(gs))
      && Encode(Normalized(fs)) == Encode(Normalized(gs))
  {
    var gs := fs[i := fs[i].(given := true)];
    FieldsIdentified(fs, gs);
    forall j | 0 <= j < |fs| ensures Alike(fs[j], gs[j]) {
      SameIsAnEquivalence(fs[j].value, fs[j].value, fs[j].value);
    }
  }
}
