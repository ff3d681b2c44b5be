/** Item listings: the order they ask for is unique, and their pages put together are the whole listing. */
module Pagination {
  import opened Options

  const MAX_SAFE_INTEGER := 9007199254740991

  /** A stored item. `name` is its rank in the collation of the column. */
  datatype Row = Row(id: nat, createdAt: int, name: int, price: nat)

  datatype Sort = CreatedAt | ItemName | Price

  /** `matches` are the ids of the items that match the search text, if there is one. */
  datatype Query = Query(
    page: int, limit: int, matches: Option<set<nat>>, sort: Sort, descending: bool, minPrice: Option<nat>, maxPrice: Option<nat>)

  function Offset(q: Query): int {
    (q.page - 1) * q.limit
  }

  /** What validation accepts. */
  predicate ValidQuery(q: Query) {
    1 <= q.page <= MAX_SAFE_INTEGER && 1 <= q.limit <= 100 && Offset(q) <= MAX_SAFE_INTEGER
  }

  /** Every page of every limit up to 100 is served whose first row has a safe number. */
  lemma QueryAccepted(q: Query)
    ensures ValidQuery(q) <==>
      1 <= q.limit <= 100 && 1 <= q.page <= 9007199254740991 && (q.page - 1) * q.limit <= 9007199254740991
  {
  }

  predicate Passes(q: Query, r: Row) {
    && (q.matches.Some? ==> r.id in q.matches.value)
    && (q.minPrice.Some? ==> r.price >= q.minPrice.value)
    && (q.maxPrice.Some? ==> r.price <= q.maxPrice.value)
  }

  function SortKey(q: Query, r: Row): int {
    match q.sort
    case CreatedAt => r.createdAt
    case ItemName => r.name
    case Price => r.price
  }

  /** Strictly first by the sort column, then by id, both in the requested direction. */
  predicate Before(q: Query, a: Row, b: Row) {
    if q.descending then SortKey(q, a) > SortKey(q, b) || (SortKey(q, a) == SortKey(q, b) && a.id > b.id)
    else SortKey(q, a) < SortKey(q, b) || (SortKey(q, a) == SortKey(q, b) && a.id < b.id)
  }

  predicate UniqueIds(table: set<Row>) {
    forall a, b | a in table && b in table && a.id == b.id :: a == b
  }

  /** A list of the rows that pass, each once, in an order that the ORDER BY clause allows. */
  ghost predicate Answers(q: Query, table: set<Row>, l: seq<Row>) {
    && (forall r :: r in l <==> r in table && Passes(q, r))
    && (forall i, j | 0 <= i < j < |l| :: l[i] != l[j] && !Before(q, l[j], l[i]))
  }

  /** The answer has no choice: the tie-break by id makes the order unique. */
  lemma {:induction false} ListingUnique(q: Query, table: set<Row>, l: seq<Row>, m: seq<Row>)
    requires UniqueIds(table) && Answers(q, table, l) && Answers(q, table, m)
    ensures l == m
    decreases |l|
  {
    assert m != [] ==> m[0] in l;
    if l != [] {
      assert l[0] in m;
      FirstNotAfter(q, table, m, l[0]);
      FirstNotAfter(q, table, l, m[0]);
      assert l[0] == m[0];
      AnswersTail(q, table, l);
      AnswersTail(q, table, m);
      ListingUnique(q, table - {l[0]}, l[1..], m[1..]);
    }
  }

  lemma FirstNotAfter(q: Query, table: set<Row>, l: seq<Row>, r: Row)
    requires Answers(q, table, l) && r in l
    ensures !Before(q, r, l[0])
  {
    var i :| 0 <= i < |l| && l[i] == r;
  }

  lemma AnswersTail(q: Query, table: set<Row>, l: seq<Row>)
    requires Answers(q, table, l) && l != []
    ensures Answers(q, table - {l[0]}, l[1..])
  {
    forall r ensures r in l[1..] <==> r in table - {l[0]} && Passes(q, r) {
      assert r in l <==> r == l[0] || r in l[1..];
    }
  }

  // ---------- a listing by sorting

  function Insert(q: Query, r: Row, l: seq<Row>): seq<Row> {
    if l == [] || Before(q, r, l[0]) then [r] + l else [l[0]] + Insert(q, r, l[1..])
  }

  function Listing(q: Query, rows: seq<Row>): seq<Row> {
    if rows == [] then []
    else if Passes(q, rows[0]) then Insert(q, rows[0], Listing(q, rows[1..]))
    else Listing(q, rows[1..])
  }

  lemma {:induction false} InsertMembers(q: Query, r: Row, l: seq<Row>)
    ensures forall x :: x in Insert(q, r, l) <==> x == r || x in l
    ensures |Insert(q, r, l)| == |l| + 1
  {
    if l != [] && !Before(q, r, l[0]) {
      InsertMembers(q, r, l[1..]);
    }
  }

  predicate Sorted(q: Query, l: seq<Row>) {
    forall i, j | 0 <= i < j < |l| :: Before(q, l[i], l[j])
  }

  lemma {:induction false} InsertSorted(q: Query, r: Row, l: seq<Row>)
    requires Sorted(q, l) && forall i | 0 <= i < |l| :: l[i].id != r.id
    ensures Sorted(q, Insert(q, r, l))
  {
    if l != [] && !Before(q, r, l[0]) {
      InsertSorted(q, r, l[1..]);
      InsertMembers(q, r, l[1..]);
      var rest := Insert(q, r, l[1..]);
      forall i | 0 <= i < |rest| ensures Before(q, l[0], rest[i]) {
        assert rest[i] in rest;
      }
    }
  }

  /** Some list answers every query on every table. */
  lemma {:induction false} ListingAnswers(q: Query, rows: seq<Row>)
    requires forall i, j | 0 <= i < j < |rows| :: rows[i].id != rows[j].id
    ensures Sorted(q, Listing(q, rows))
    ensures Answers(q, (set r | r in rows), Listing(q, rows))
  {
    if rows != [] {
      ListingAnswers(q, rows[1..]);
      var rest := Listing(q, rows[1..]);
      if Passes(q, rows[0]) {
        forall i | 0 <= i < |rest| ensures rest[i].id != rows[0].id {
          assert rest[i] in rest;
          assert rest[i] in rows[1..];
        }
        InsertSorted(q, rows[0], rest);
        InsertMembers(q, rows[0], rest);
      }
      forall r ensures r in Listing(q, rows) <==> r in rows && Passes(q, r) {
        assert r in rows <==> r == rows[0] || r in rows[1..];
      }
    }
  }

  // ---------- pages

  function Min(a: int, b: int): int {
    if a < b then a else b
  }

  /** OFFSET and LIMIT. */
  function Slice(l: seq<Row>, offset: nat, limit: nat): seq<Row> {
    l[Min(offset, |l|)..Min(offset + limit, |l|)]
  }

  function TotalPages(total: nat, limit: nat): nat {
    if limit == 0 then 1
    else
      var pages := (total + limit - 1) / limit;
      if pages < 1 then 1 else pages
  }

  /** Page `i + 1` cut from `answers[i]`, all put together. */
  function Together(answers: seq<seq<Row>>, limit: nat): seq<Row> {
    if answers == [] then []
    else
      var last := |answers| - 1;
      Together(answers[..last], limit) + Slice(answers[last], last * limit, limit)
  }

  lemma {:induction false} TogetherPrefix(answers: seq<seq<Row>>, l: seq<Row>, limit: nat)
    requires forall i | 0 <= i < |answers| :: answers[i] == l
    ensures |answers| * limit >= 0 && Together(answers, limit) == l[..Min(|answers| * limit, |l|)]
  {
    if answers != [] {
      var last := |answers| - 1;
      TogetherPrefix(answers[..last], l, limit);
      Times(last, limit);
      SliceAfter(l, last * limit, limit);
    } else {
      Times(0, limit);
    }
  }

  lemma Times(n: nat, limit: nat)
    ensures n * limit >= 0 && (n + 1) * limit == n * limit + limit
  {
  }

  lemma SliceAfter(l: seq<Row>, offset: nat, limit: nat)
    ensures l[..Min(offset, |l|)] + Slice(l, offset, limit) == l[..Min(offset + limit, |l|)]
  {
  }

  lemma EnoughPages(total: nat, limit: nat)
    requires limit > 0
    ensures TotalPages(total, limit) * limit >= total
    ensures total > 0 ==> (TotalPages(total, limit) - 1) * limit < total
  {
    var n := (total + limit - 1) / limit;
    var r := (total + limit - 1) % limit;
    assert total + limit - 1 == n * limit + r;
    assert (n - 1) * limit == n * limit - limit;
  }

  /**
   Each page is answered on its own, by a list of the database's choosing; on a table that does not
   change, pages 1 to `total_pages` put together are the whole listing, every row once.
   */
  lemma PagesAreTheListing(q: Query, table: set<Row>, answers: seq<seq<Row>>, l: seq<Row>)
    requires UniqueIds(table) && ValidQuery(q) && Answers(q, table, l)
    requires |answers| == TotalPages(|l|, q.limit) && forall i | 0 <= i < |answers| :: Answers(q, table, answers[i])
    ensures Together(answers, q.limit) == l
  {
    forall i | 0 <= i < |answers| ensures answers[i] == l {
      ListingUnique(q, table, answers[i], l);
    }
    TogetherPrefix(answers, l, q.limit);
    EnoughPages(|l|, q.limit);
  }

  /** A page holds rows exactly if there is a row to list and the page is not past the last. */
  lemma PageFilled(q: Query, l: seq<Row>)
    requires ValidQuery(q)
    ensures Offset(q) >= 0 && (Slice(l, Offset(q), q.limit) != [] <==> l != [] && q.page <= TotalPages(|l|, q.limit))
  {
    EnoughPages(|l|, q.limit);
    var n := TotalPages(|l|, q.limit);
    if q.page <= n {
      Multiply(q.page - 1, n - 1, q.limit);
    } else {
      Multiply(n, q.page - 1, q.limit);
    }
    Multiply(0, q.page - 1, q.limit);
  }

  lemma Multiply(a: int, b: int, c: int)
    requires a <= b && c >= 0
    ensures a * c <= b * c
  {
  }

  // ---------- what a listing lists

  /** The rows that match the search and lie within the price bounds, and no others. */
  lemma ListsMatches(q: Query, table: set<Row>, l: seq<Row>, r: Row)
    requires Answers(q, table, l)
    ensures r in l <==>
      && r in table
      && (q.matches == None || r.id in q.matches.value)
      && (q.minPrice == None || r.price >= q.minPrice.value)
      && (q.maxPrice == None || r.price <= q.maxPrice.value)
  {
  }

  /** `x` and `y` are in the direction asked for, and if they agree the ids are. */
  predicate Ordered(descending: bool, x: int, y: int, xId: nat, yId: nat) {
    if descending then x >= y && (x == y ==> xId > yId) else x <= y && (x == y ==> xId < yId)
  }

  /** Rows come by creation time, name or price as asked, rows that agree in it by id, all in the direction asked for. */
  lemma ListsInOrder(q: Query, table: set<Row>, l: seq<Row>, i: nat, j: nat)
    requires UniqueIds(table) && Answers(q, table, l) && i < j < |l|
    ensures q.sort == CreatedAt ==> Ordered(q.descending, l[i].createdAt, l[j].createdAt, l[i].id, l[j].id)
    ensures q.sort == ItemName ==> Ordered(q.descending, l[i].name, l[j].name, l[i].id, l[j].id)
    ensures q.sort == Price ==> Ordered(q.descending, l[i].price, l[j].price, l[i].id, l[j].id)
  {
    assert l[i] in l && l[j] in l;
    assert l[i] != l[j] && !Before(q, l[j], l[i]);
  }

  /** The number of pages is the least that holds all rows, and at least one. */
  lemma LeastPages(total: nat, limit: nat, n: nat)
    requires limit > 0 && n >= 1 && n * limit >= total
    ensures TotalPages(total, limit) * limit >= total && 1 <= TotalPages(total, limit) <= n
  {
    EnoughPages(total, limit);
    if TotalPages(total, limit) > n {
      Multiply(n, TotalPages(total, limit) - 1, limit);
    }
  }
}
