/** `ORDER BY` and `LIMIT`/`OFFSET` fragments for list endpoints, and what the pages they fetch add
    up to. */
module Paging {
  import opened Text

  datatype Query = Query(sort: Option<string>, order: Option<string>, limit: Option<int>, offset: Option<int>)

  datatype Options = Options(
    query: Query, allowedSortColumns: map<string, string>, defaultSortKey: string,
    defaultOrder: string, tiebreakerColumn: Option<string>)

  datatype Term = Term(column: string, descending: bool)

  /** The `ORDER BY` terms in order, and the two bound parameters. */
  datatype Fragment = Fragment(terms: seq<Term>, limit: int, offset: int)

  datatype Outcome = Built(fragment: Fragment) | BadRequest | MisconfiguredEndpoint

  predicate IsAscending(order: string) {
    |order| == 3 && AsciiLower(order[0]) == 'a' && AsciiLower(order[1]) == 's' && AsciiLower(order[2]) == 'c'
  }

  function Clamp(low: int, n: int, high: int): int {
    var m := if n < low then low else n;
    if m > high then high else m
  }

  function BuildPaginationSqlFragment(o: Options): Outcome {
    var requested := if o.query.sort.Some? then Trim(o.query.sort.value) else "";
    if requested != "" && requested !in o.allowedSortColumns then BadRequest
    else if requested == "" && o.defaultSortKey !in o.allowedSortColumns then MisconfiguredEndpoint
    else
      var column := o.allowedSortColumns[if requested != "" then requested else o.defaultSortKey];
      var descending :=
        if o.query.order.Some? then !IsAscending(o.query.order.value) else o.defaultOrder != "asc";
      var tiebreaker :=
        if Truthy(o.tiebreakerColumn) && column != o.tiebreakerColumn.value
        then [Term(o.tiebreakerColumn.value, descending)] else [];
      Built(Fragment(
        [Term(column, descending)] + tiebreaker,
        Clamp(1, if o.query.limit.Some? then o.query.limit.value else 50, 100),
        if o.query.offset.Some? && o.query.offset.value > 0 then o.query.offset.value else 0))
  }

  // ---------------------------------------------------------------------------------------------
  // What the database makes of it
  // ---------------------------------------------------------------------------------------------

  /** A row, as the rank of each column's value in the order of its type (NULL lowest). */
  type Row = map<string, int>

  function Rank(r: Row, column: string): int {
    if column in r then r[column] else 0
  }

  predicate Before(terms: seq<Term>, a: Row, b: Row) {
    terms != []
    && var x, y := Rank(a, terms[0].column), Rank(b, terms[0].column);
       if x == y then Before(terms[1..], a, b) else (x < y) != terms[0].descending
  }

  predicate Tied(terms: seq<Term>, a: Row, b: Row) {
    forall t | t in terms :: Rank(a, t.column) == Rank(b, t.column)
  }

  predicate Sorted(terms: seq<Term>, rows: seq<Row>) {
    forall i, j :: 0 <= i < j < |rows| ==> !Before(terms, rows[j], rows[i])
  }

  /** An order in which the database may return the table. */
  ghost predicate Arrangement(terms: seq<Term>, table: seq<Row>, rows: seq<Row>) {
    multiset(rows) == multiset(table) && Sorted(terms, rows)
  }

  /** Rows in different places never agree on all terms. */
  predicate NoTies(terms: seq<Term>, table: seq<Row>) {
    forall i, j :: 0 <= i < j < |table| ==> !Tied(terms, table[i], table[j])
  }

  lemma {:induction false} Trichotomy(terms: seq<Term>, a: Row, b: Row)
    ensures !(Before(terms, a, b) && Before(terms, b, a))
    ensures Tied(terms, a, b) <==> !Before(terms, a, b) && !Before(terms, b, a)
  {
    if terms != [] {
      Trichotomy(terms[1..], a, b);
      assert terms == [terms[0]] + terms[1..];
    }
  }

  lemma {:induction false} BeforeTransitive(terms: seq<Term>, a: Row, b: Row, c: Row)
    requires !Before(terms, b, a) && !Before(terms, c, b)
    ensures !Before(terms, c, a)
  {
    if terms != [] && Rank(a, terms[0].column) == Rank(b, terms[0].column) == Rank(c, terms[0].column) {
      BeforeTransitive(terms[1..], a, b, c);
    }
  }

  lemma MultisetTail<T>(s: seq<T>)
    requires s != []
    ensures multiset(s[1..]) == multiset(s) - multiset{s[0]}
  {
    assert s == [s[0]] + s[1..];
  }

  lemma NoTiesByRow(terms: seq<Term>, table: seq<Row>, a: Row, b: Row)
    requires NoTies(terms, table) && a in table && b in table && a != b
    ensures !Tied(terms, a, b)
  {
    var i :| 0 <= i < |table| && table[i] == a;
    var j :| 0 <= j < |table| && table[j] == b;
  }

  /** Without ties, sorting leaves the database no choice. */
  lemma {:induction false} OneArrangement(terms: seq<Term>, table: seq<Row>, a: seq<Row>, b: seq<Row>)
    requires Arrangement(terms, table, a) && multiset(b) == multiset(a) && Sorted(terms, b)
    requires forall x, y | x in a && y in a && x != y :: !Tied(terms, x, y)
    ensures a == b
    decreases |a|
  {
    assert |a| == |b| by { assert |multiset(a)| == |multiset(b)|; }
    if a != [] {
      SameFirst(terms, a, b);
      MultisetTail(a);
      MultisetTail(b);
      assert Sorted(terms, a[1..]) && Sorted(terms, b[1..]);
      OneArrangement(terms, a[1..], a[1..], b[1..]);
    }
  }

  lemma SameFirst(terms: seq<Term>, a: seq<Row>, b: seq<Row>)
    requires a != [] && b != [] && multiset(b) == multiset(a) && Sorted(terms, a) && Sorted(terms, b)
    requires forall x, y | x in a && y in a && x != y :: !Tied(terms, x, y)
    ensures a[0] == b[0]
  {
    hide Before, Tied;
    assert a[0] in multiset(b) && b[0] in multiset(a);
    var i :| 0 <= i < |b| && b[i] == a[0];
    var j :| 0 <= j < |a| && a[j] == b[0];
    Trichotomy(terms, a[0], a[0]);
    assert !Before(terms, a[0], b[0]) by { if i > 0 { assert !Before(terms, b[i], b[0]); } }
    assert !Before(terms, b[0], a[0]) by { if j > 0 { assert !Before(terms, a[j], a[0]); } }
    Trichotomy(terms, a[0], b[0]);
  }

  function Insert(terms: seq<Term>, r: Row, rows: seq<Row>): seq<Row> {
    if rows == [] then [r]
    else if Before(terms, rows[0], r) then [rows[0]] + Insert(terms, r, rows[1..])
    else [r] + rows
  }

  function Sort(terms: seq<Term>, table: seq<Row>): seq<Row> {
    if table == [] then [] else Insert(terms, table[0], Sort(terms, table[1..]))
  }

  lemma FirstStays(terms: seq<Term>, r: Row, rows: seq<Row>, rest: seq<Row>)
    requires rows != [] && Sorted(terms, rows) && Sorted(terms, rest) && !Before(terms, r, rows[0])
    requires multiset(rest) == multiset(rows[1..]) + multiset{r}
    ensures Sorted(terms, [rows[0]] + rest)
  {
    hide Before;
    forall j | 0 <= j < |rest| ensures !Before(terms, rest[j], rows[0]) {
      assert rest[j] in multiset(rows[1..]) + multiset{r};
      if rest[j] != r {
        var i :| 0 <= i < |rows| - 1 && rows[1..][i] == rest[j];
        assert rows[i + 1] == rest[j];
      }
    }
  }

  lemma {:induction false} InsertSorted(terms: seq<Term>, r: Row, rows: seq<Row>)
    requires Sorted(terms, rows)
    ensures multiset(Insert(terms, r, rows)) == multiset(rows) + multiset{r}
    ensures Sorted(terms, Insert(terms, r, rows))
  {
    var all := Insert(terms, r, rows);
    if rows != [] {
      assert rows == [rows[0]] + rows[1..];
      if Before(terms, rows[0], r) {
        InsertSorted(terms, r, rows[1..]);
        var rest := Insert(terms, r, rows[1..]);
        Trichotomy(terms, rows[0], r);
        FirstStays(terms, r, rows, rest);
        assert all == [rows[0]] + rest;
      } else {
        forall j | 0 <= j < |rows| ensures !Before(terms, rows[j], r) {
          if j > 0 { BeforeTransitive(terms, r, rows[0], rows[j]); }
        }
      }
    }
  }

  lemma {:induction false} SortArranges(terms: seq<Term>, table: seq<Row>)
    ensures Arrangement(terms, table, Sort(terms, table))
  {
    if table != [] {
      SortArranges(terms, table[1..]);
      InsertSorted(terms, table[0], Sort(terms, table[1..]));
      MultisetTail(table);
      assert table[0] in multiset(table);
    }
  }

  predicate Distinct(table: seq<Row>) {
    forall i, j :: 0 <= i < j < |table| ==> table[i] != table[j]
  }

  /** A table of different rows has exactly one sorted arrangement if and only if no two rows tie. */
  lemma UniqueArrangement(terms: seq<Term>, table: seq<Row>)
    requires Distinct(table)
    ensures NoTies(terms, table)
            <==> forall rows :: Arrangement(terms, table, rows) ==> rows == Sort(terms, table)
  {
    var sorted := Sort(terms, table);
    SortArranges(terms, table);
    if NoTies(terms, table) {
      forall rows | Arrangement(terms, table, rows) ensures rows == sorted {
        forall x, y | x in sorted && y in sorted && x != y ensures !Tied(terms, x, y) {
          assert x in multiset(table) && y in multiset(table);
          NoTiesByRow(terms, table, x, y);
        }
        OneArrangement(terms, table, sorted, rows);
      }
    } else {
      var i, j :| 0 <= i < j < |table| && Tied(terms, table[i], table[j]);
      var other := SwappedTie(terms, table, sorted, table[i], table[j]);
    }
  }

  /** Two tied rows can be had in another order: neighbours in between tie as well. */
  lemma SwappedTie(terms: seq<Term>, table: seq<Row>, rows: seq<Row>, a: Row, b: Row) returns (other: seq<Row>)
    requires Arrangement(terms, table, rows) && Distinct(table)
    requires a in table && b in table && a != b && Tied(terms, a, b)
    ensures Arrangement(terms, table, other) && other != rows
  {
    hide Before, Tied, Sorted, Distinct;
    assert a in multiset(rows) && b in multiset(rows);
    var i :| 0 <= i < |rows| && rows[i] == a;
    var j :| 0 <= j < |rows| && rows[j] == b;
    var p, q := if i < j then i else j, if i < j then j else i;
    TiedBothWays(terms, a, b);
    NeighboursTie(terms, rows, p, q);
    other := rows[p := rows[p + 1]][p + 1 := rows[p]];
    SwapSorted(terms, rows, p);
    SwapMultiset(rows, p);
    NeighboursDiffer(table, rows, p);
  }

  lemma TiedBothWays(terms: seq<Term>, a: Row, b: Row)
    requires Tied(terms, a, b)
    ensures Tied(terms, b, a)
  {}

  lemma NeighboursTie(terms: seq<Term>, rows: seq<Row>, p: nat, q: nat)
    requires Sorted(terms, rows) && p < q < |rows| && Tied(terms, rows[p], rows[q])
    ensures Tied(terms, rows[p], rows[p + 1])
  {
    hide Before, Tied;
    Trichotomy(terms, rows[p], rows[q]);
    Trichotomy(terms, rows[p], rows[p + 1]);
    if p + 1 < q { BeforeTransitive(terms, rows[p + 1], rows[q], rows[p]); }
  }

  lemma SwapSorted(terms: seq<Term>, rows: seq<Row>, p: nat)
    requires Sorted(terms, rows) && p + 1 < |rows| && Tied(terms, rows[p], rows[p + 1])
    ensures Sorted(terms, rows[p := rows[p + 1]][p + 1 := rows[p]])
  {
    Trichotomy(terms, rows[p], rows[p + 1]);
  }

  lemma SwapMultiset(rows: seq<Row>, p: nat)
    requires p + 1 < |rows|
    ensures multiset(rows[p := rows[p + 1]][p + 1 := rows[p]]) == multiset(rows)
  {}

  lemma NeighboursDiffer(table: seq<Row>, rows: seq<Row>, p: nat)
    requires Distinct(table) && multiset(rows) == multiset(table) && p + 1 < |rows|
    ensures rows[p] != rows[p + 1]
  {
    var r := rows[p];
    assert rows == rows[..p] + [r, rows[p + 1]] + rows[p + 2..];
    OnceInDistinct(table, r);
    assert r == rows[p + 1] ==> multiset(rows)[r] >= 2;
  }

  lemma {:induction false} OnceInDistinct(table: seq<Row>, r: Row)
    requires Distinct(table)
    ensures multiset(table)[r] <= 1
  {
    if table != [] {
      OnceInDistinct(table[1..], r);
      assert table == [table[0]] + table[1..];
      assert table[0] !in table[1..];
    }
  }

  // ---------------------------------------------------------------------------------------------
  // Pages
  // ---------------------------------------------------------------------------------------------

  /** The page a query with this limit and offset gets from the rows it sorted. */
  function Page(rows: seq<Row>, limit: nat, offset: nat): seq<Row> {
    if offset >= |rows| then []
    else if offset + limit >= |rows| then rows[offset..]
    else rows[offset..offset + limit]
  }

  /** The first `n` pages, page `k` cut from the arrangement its own query happened to get. */
  function Pages(arrangements: nat -> seq<Row>, limit: nat, n: nat): seq<Row> {
    if n == 0 then [] else Pages(arrangements, limit, n - 1) + Page(arrangements(n - 1), limit, (n - 1) * limit)
  }

  /** The first `n` rows, or all if there are fewer. */
  function FirstRows(rows: seq<Row>, n: nat): seq<Row> {
    if n >= |rows| then rows else rows[..n]
  }

  lemma PageNext(rows: seq<Row>, limit: nat, offset: nat)
    ensures FirstRows(rows, offset) + Page(rows, limit, offset) == FirstRows(rows, offset + limit)
  {}

  lemma NoRows(rows: seq<Row>)
    ensures FirstRows(rows, 0) == []
  {}

  lemma {:induction false} PagesOfOne(arrangements: nat -> seq<Row>, rows: seq<Row>, limit: nat, n: nat)
    requires forall k: nat :: arrangements(k) == rows
    ensures Pages(arrangements, limit, n) == FirstRows(rows, n * limit)
  {
    hide Page, FirstRows;
    NoRows(rows);
    if n > 0 {
      PagesOfOne(arrangements, rows, limit, n - 1);
      PageNext(rows, limit, (n - 1) * limit);
      assert n * limit == (n - 1) * limit + limit;
    }
  }

  /** The identifier column holds a different value in every row. */
  predicate UniqueIn(column: string, table: seq<Row>) {
    forall i, j :: 0 <= i < j < |table| ==> Rank(table[i], column) != Rank(table[j], column)
  }

  /** The column that is sorted by: that of the requested key if one is given, else of the default. */
  predicate Requested(o: Options, key: string) {
    if o.query.sort.Some? && Trim(o.query.sort.value) != "" then key == Trim(o.query.sort.value) else key == o.defaultSortKey
  }

  /** `asc` in any case. */
  predicate SpellsAsc(order: string) {
    order in ["asc", "asC", "aSc", "aSC", "Asc", "AsC", "ASc", "ASC"]
  }

  lemma AscendingSpelt(order: string)
    ensures IsAscending(order) <==> SpellsAsc(order)
  {
    if IsAscending(order) { assert order == [order[0], order[1], order[2]]; }
  }

  /** Whatever the request, the fragment sorts by the requested key's column, then, in the same direction, by
      the tiebreaker, which always comes last, and by nothing else. It sorts downwards unless the request, or
      without one the endpoint, asks for `asc`. The page size is the requested one between 1 and 100, and 50
      without a request; the offset is the requested one, unless that is missing or negative. A key that is
      not allowed is refused. */
  lemma FragmentOrders(o: Options, key: string)
    requires Requested(o, key)
    ensures BuildPaginationSqlFragment(o).Built? <==> key in o.allowedSortColumns
    ensures BuildPaginationSqlFragment(o).Built? ==>
              var f := BuildPaginationSqlFragment(o).fragment;
              && 1 <= f.limit <= 100
              && (o.query.limit.None? ==> f.limit == 50)
              && (o.query.limit.Some? ==>
                    && (1 <= o.query.limit.value <= 100 ==> f.limit == o.query.limit.value)
                    && (o.query.limit.value < 1 ==> f.limit == 1) && (o.query.limit.value > 100 ==> f.limit == 100))
              && f.offset >= 0
              && (o.query.offset.Some? && o.query.offset.value >= 0 ==> f.offset == o.query.offset.value)
              && (o.query.offset.None? || o.query.offset.value < 0 ==> f.offset == 0)
              && 1 <= |f.terms| <= 2 && f.terms[0].column == o.allowedSortColumns[key]
              && (forall t | t in f.terms :: t.descending == f.terms[0].descending)
              && (o.query.order.None? ==> (f.terms[0].descending <==> o.defaultOrder != "asc"))
              && (o.query.order.Some? ==> (f.terms[0].descending <==> !SpellsAsc(o.query.order.value)))
              && (Truthy(o.tiebreakerColumn) ==> f.terms[|f.terms| - 1].column == o.tiebreakerColumn.value)
              && (!Truthy(o.tiebreakerColumn) ==> |f.terms| == 1)
  {
    hide IsAscending, SpellsAsc;
    if o.query.order.Some? { AscendingSpelt(o.query.order.value); }
  }

  lemma UniqueColumnNoTies(terms: seq<Term>, table: seq<Row>, column: string)
    requires UniqueIn(column, table) && exists t | t in terms :: t.column == column
    ensures NoTies(terms, table) && Distinct(table)
  {}

  /** With a tiebreaker on a unique column, the pages at offsets 0, L, 2L and so on add up to the
      table's one sorted arrangement, so every row is visited exactly once, even though each query
      sorts anew. */
  lemma PagesPartition(o: Options, table: seq<Row>, arrangements: nat -> seq<Row>, n: nat)
    requires BuildPaginationSqlFragment(o).Built?
    requires Truthy(o.tiebreakerColumn) && UniqueIn(o.tiebreakerColumn.value, table)
    requires forall k: nat :: Arrangement(BuildPaginationSqlFragment(o).fragment.terms, table, arrangements(k))
    requires n * BuildPaginationSqlFragment(o).fragment.limit >= |table|
    ensures var f := BuildPaginationSqlFragment(o).fragment;
            f.limit > 0
            && Pages(arrangements, f.limit, n) == Sort(f.terms, table)
            && multiset(Pages(arrangements, f.limit, n)) == multiset(table)
  {
    var f := BuildPaginationSqlFragment(o).fragment;
    FragmentOrders(o, if o.query.sort.Some? && Trim(o.query.sort.value) != "" then Trim(o.query.sort.value) else o.defaultSortKey);
    UniqueColumnNoTies(f.terms, table, o.tiebreakerColumn.value);
    UniqueArrangement(f.terms, table);
    SortArranges(f.terms, table);
    var rows := Sort(f.terms, table);
    assert |rows| == |table| by { assert |multiset(rows)| == |multiset(table)|; }
    PagesOfOne(arrangements, rows, f.limit, n);
  }
}
