/**
 Paging through the filtered records (store.go:178-251).

 Every page is its own query, so each may see its own result of `ORDER BY received_at DESC, id DESC`.
 That order is strict on rows with distinct ids, so there is only one such result.
 */
module Paging {
  import opened Common
  import opened QueryCompiler

  // ------------------------------------------------------------------ ordering

  /** Row `a` is listed before row `b`. */
  predicate Precedes(a: Row, b: Row) {
    a.receivedAt > b.receivedAt || (a.receivedAt == b.receivedAt && a.id > b.id)
  }

  predicate UniqueIds(rows: seq<Row>) {
    forall i, j :: 0 <= i < j < |rows| ==> rows[i].id != rows[j].id
  }

  predicate Descending(rows: seq<Row>) {
    forall i, j :: 0 <= i < j < |rows| ==> Precedes(rows[i], rows[j])
  }

  function Select(rows: seq<Row>, f: Filter, ops: TextOps): seq<Row> {
    if rows == [] then []
    else Select(rows[..|rows| - 1], f, ops) + (if Matches(f, rows[|rows| - 1], ops) then [rows[|rows| - 1]] else [])
  }

  /** What ORDER BY promises: the same rows, none before one that precedes it. */
  predicate Ordered(rows: seq<Row>, result: seq<Row>) {
    && multiset(result) == multiset(rows)
    && forall i, j :: 0 <= i < j < |result| ==> !Precedes(result[j], result[i])
  }

  function Insert(row: Row, sorted: seq<Row>): seq<Row> {
    if sorted == [] || Precedes(row, sorted[0]) then [row] + sorted
    else [sorted[0]] + Insert(row, sorted[1..])
  }

  /** An order that the database may return; any other is equal to it. */
  function Sort(rows: seq<Row>): seq<Row> {
    if rows == [] then [] else Insert(rows[0], Sort(rows[1..]))
  }

  lemma {:induction false} InsertKeeps(row: Row, sorted: seq<Row>)
    ensures multiset(Insert(row, sorted)) == multiset(sorted) + multiset{row}
  {
    if !(sorted == [] || Precedes(row, sorted[0])) {
      InsertKeeps(row, sorted[1..]);
      assert sorted == [sorted[0]] + sorted[1..];
    }
  }

  lemma {:induction false} InsertDescends(row: Row, sorted: seq<Row>)
    requires Descending(sorted) && forall i :: 0 <= i < |sorted| ==> sorted[i].id != row.id
    ensures Descending(Insert(row, sorted))
  {
    if sorted != [] && !Precedes(row, sorted[0]) {
      var rest := Insert(row, sorted[1..]);
      InsertDescends(row, sorted[1..]);
      InsertKeeps(row, sorted[1..]);
      forall j | 0 <= j < |rest|
        ensures Precedes(sorted[0], rest[j])
      {
        assert rest[j] in multiset(rest);
        if rest[j] != row { assert rest[j] in sorted[1..]; }
      }
    }
  }

  lemma {:induction false} SortSorts(rows: seq<Row>)
    requires UniqueIds(rows)
    ensures Descending(Sort(rows)) && multiset(Sort(rows)) == multiset(rows)
  {
    if rows != [] {
      var rest := rows[1..];
      SortSorts(rest);
      NewHead(rows, rest, Sort(rest));
      InsertDescends(rows[0], Sort(rest));
      InsertKeeps(rows[0], Sort(rest));
      assert rows == [rows[0]] + rest;
    }
  }

  lemma NewHead(rows: seq<Row>, rest: seq<Row>, sorted: seq<Row>)
    requires UniqueIds(rows) && rows != [] && rest == rows[1..] && multiset(sorted) == multiset(rest)
    ensures forall i :: 0 <= i < |sorted| ==> sorted[i].id != rows[0].id
  {
    forall i | 0 <= i < |sorted|
      ensures sorted[i].id != rows[0].id
    {
      assert sorted[i] in multiset(sorted);
      assert sorted[i] in rest;
    }
  }

  lemma UniqueUnderReordering(rows: seq<Row>, result: seq<Row>)
    requires UniqueIds(rows) && multiset(result) == multiset(rows)
    ensures UniqueIds(result)
  {
    forall i, j | 0 <= i < j < |result|
      ensures result[i].id != result[j].id
    {
      var a, b := result[i], result[j];
      assert a in multiset(result) && b in multiset(result);
      var x :| 0 <= x < |rows| && rows[x] == a;
      var y :| 0 <= y < |rows| && rows[y] == b;
      OccursOnce(rows, x);
      OccursTwice(result, i, j);
      assert a != b && x != y;
    }
  }

  lemma OccursTwice(s: seq<Row>, i: nat, j: nat)
    requires i < j < |s|
    ensures s[i] == s[j] ==> multiset(s)[s[i]] >= 2
  {
    assert s == s[..i] + [s[i]] + s[i + 1..j] + [s[j]] + s[j + 1..];
  }

  lemma OccursOnce(s: seq<Row>, i: nat)
    requires i < |s| && UniqueIds(s)
    ensures multiset(s)[s[i]] == 1
  {
    assert s == s[..i] + [s[i]] + s[i + 1..];
    assert s[i] !in s[..i] && s[i] !in s[i + 1..];
  }

  lemma OrderedDescends(rows: seq<Row>, result: seq<Row>)
    requires UniqueIds(rows) && Ordered(rows, result)
    ensures Descending(result)
  {
    UniqueUnderReordering(rows, result);
  }

  /** Two descending lists of the same rows are equal. */
  lemma {:induction false} DescendingIsUnique(a: seq<Row>, b: seq<Row>)
    requires Descending(a) && Descending(b) && multiset(a) == multiset(b)
    ensures a == b
  {
    assert |a| == |multiset(a)| == |multiset(b)| == |b|;
    if |a| > 0 {
      SameFirst(a, b);
      DropFirst(a);
      DropFirst(b);
      DescendingIsUnique(a[1..], b[1..]);
      assert a == [a[0]] + a[1..] && b == [b[0]] + b[1..];
    }
  }

  lemma DropFirst(a: seq<Row>)
    requires a != []
    ensures multiset(a[1..]) == multiset(a) - multiset{a[0]}
  {
    assert a == [a[0]] + a[1..];
  }

  lemma SameFirst(a: seq<Row>, b: seq<Row>)
    requires Descending(a) && Descending(b) && multiset(a) == multiset(b) && a != [] && b != []
    ensures a[0] == b[0]
  {
    assert forall i :: 0 < i < |a| ==> Precedes(a[0], a[i]);
    assert forall i :: 0 < i < |b| ==> Precedes(b[0], b[i]);
    assert a[0] in multiset(a) && b[0] in multiset(b);
    var i :| 0 <= i < |b| && b[i] == a[0];
    var j :| 0 <= j < |a| && a[j] == b[0];
  }

  /** The answer to ORDER BY is unique, and it is `Sort`. */
  lemma OrderIsUnique(rows: seq<Row>, result: seq<Row>)
    requires UniqueIds(rows) && Ordered(rows, result)
    ensures result == Sort(rows)
  {
    OrderedDescends(rows, result);
    SortSorts(rows);
    DescendingIsUnique(result, Sort(rows));
  }

  lemma {:induction false} SelectIsSubset(rows: seq<Row>, f: Filter, ops: TextOps)
    requires UniqueIds(rows)
    ensures UniqueIds(Select(rows, f, ops))
    ensures forall row :: row in Select(rows, f, ops) <==> row in rows && Matches(f, row, ops)
  {
    if rows != [] {
      var front, last := rows[..|rows| - 1], rows[|rows| - 1];
      SelectIsSubset(front, f, ops);
      assert rows == front + [last];
      assert forall i :: 0 <= i < |front| ==> front[i] == rows[i];
      assert forall row :: row in Select(front, f, ops) ==> row in front && row.id != last.id;
    }
  }

  // ------------------------------------------------------------------- paging

  /** LIMIT and OFFSET on an ordered result. */
  function Slice(result: seq<Row>, limit: nat, offset: nat): seq<Row> {
    if offset >= |result| then [] else result[offset..Min(offset + limit, |result|)]
  }

  /** The page that `List` returns for this filter, if the database answers with `result`. */
  function Page(result: seq<Row>, limit: int, offset: int): seq<Row> {
    Slice(result, PageLimit(limit), PageOffset(offset))
  }

  /** Pages 0 to n - 1 of size `limit`, each from its own query result. */
  function Pages(results: nat -> seq<Row>, limit: nat, n: nat): seq<Row> {
    if n == 0 then [] else Pages(results, limit, n - 1) + Page(results(n - 1), limit, (n - 1) * limit)
  }

  lemma {:induction false} PagesSoFar(results: nat -> seq<Row>, all: seq<Row>, limit: nat, n: nat)
    requires 1 <= limit <= 200 && (forall k: nat :: k < n ==> results(k) == all)
    requires n > 0 ==> (n - 1) * limit <= MAX_OFFSET
    ensures Pages(results, limit, n) == all[..Min(n * limit, |all|)]
  {
    if n > 0 {
      var m, offset := n - 1, (n - 1) * limit;
      Successive(m, limit);
      PagesSoFar(results, all, limit, m);
      NextPage(all, limit, offset);
      assert Pages(results, limit, n) == Pages(results, limit, m) + Page(all, limit, offset);
    }
  }

  lemma Successive(m: nat, limit: nat)
    ensures (m + 1) * limit == m * limit + limit
    ensures m > 0 ==> (m - 1) * limit <= m * limit
  {
  }

  lemma NextPage(all: seq<Row>, limit: nat, offset: nat)
    requires 1 <= limit <= 200 && offset <= MAX_OFFSET
    ensures all[..Min(offset, |all|)] + Page(all, limit, offset) == all[..Min(offset + limit, |all|)]
  {
  }

  /** The first page whose offset is beyond the maximum. */
  function FirstClamped(limit: nat): (k: nat)
    requires limit > 0
    ensures k > 0 && k * limit > MAX_OFFSET && (k - 1) * limit <= MAX_OFFSET
  {
    MAX_OFFSET / limit + 1
  }

  lemma {:induction false} PagesOnlyGrow(results: nat -> seq<Row>, limit: nat, m: nat, n: nat)
    requires m <= n
    ensures Pages(results, limit, m) <= Pages(results, limit, n)
  {
    if m < n { PagesOnlyGrow(results, limit, m, n - 1); }
  }

  /** The last of `n` pages starts at its own offset, or no row lies behind the greatest offset. */
  predicate Reachable(total: nat, limit: nat, n: nat) {
    n == 0 || (n - 1) * limit <= MAX_OFFSET || total <= MAX_OFFSET
  }

  /** Clamped pages are empty when no row lies behind the greatest offset. */
  lemma {:induction false} ClampedPagesAreEmpty(results: nat -> seq<Row>, all: seq<Row>, limit: nat, m: nat, n: nat)
    requires 1 <= limit <= 200 && (forall k: nat :: results(k) == all) && |all| <= MAX_OFFSET < m * limit && m <= n
    ensures Pages(results, limit, n) == Pages(results, limit, m)
  {
    if m < n {
      ClampedPagesAreEmpty(results, all, limit, m, n - 1);
      MulOrder(m, n - 1, limit);
      assert PageOffset((n - 1) * limit) == MAX_OFFSET;
      assert Page(results(n - 1), limit, (n - 1) * limit) == [];
    }
  }

  lemma ReachablePages(results: nat -> seq<Row>, all: seq<Row>, limit: nat, n: nat)
    requires 1 <= limit <= 200 && (forall k: nat :: results(k) == all)
    requires |all| <= n * limit && Reachable(|all|, limit, n)
    ensures Pages(results, limit, n) == all
  {
    assert all[..|all|] == all;
    if n == 0 || (n - 1) * limit <= MAX_OFFSET {
      PagesSoFar(results, all, limit, n);
    } else {
      var k := FirstClamped(limit);
      SmallerFactor(k, n - 1, limit);
      PagesSoFar(results, all, limit, k);
      ClampedPagesAreEmpty(results, all, limit, k, n);
    }
  }

  /**
   Paging covers exactly: with a fixed table and any page size from 1 to 200, any number of pages that is
   enough for the total, each from its own query, gives every matching record once, in the unique order,
   exactly when the last offset does not exceed 1,000,000 or the total does not.  Otherwise the offset is
   clamped and rows repeat.
   */
  lemma PagesCoverExactly(rows: seq<Row>, f: Filter, ops: TextOps, results: nat -> seq<Row>, limit: nat, n: nat)
    requires UniqueIds(rows) && 1 <= limit <= 200
    requires forall k: nat :: Ordered(Select(rows, f, ops), results(k))
    requires |Select(rows, f, ops)| <= n * limit
    ensures var all := Sort(Select(rows, f, ops));
      && (Pages(results, limit, n) == all <==> Reachable(|all|, limit, n))
      && (UniqueIds(Pages(results, limit, n)) <==> Reachable(|all|, limit, n))
      && |all| == |Select(rows, f, ops)|
      && (forall i, j :: 0 <= i < j < |all| ==>
            || all[i].receivedAt > all[j].receivedAt
            || (all[i].receivedAt == all[j].receivedAt && all[i].id > all[j].id))
      && (forall row :: row in all <==> row in rows && Matches(f, row, ops))
  {
    var selected := Select(rows, f, ops);
    SelectIsSubset(rows, f, ops);
    SortSorts(selected);
    var all := Sort(selected);
    SameRows(all, selected);
    AllResultsAlike(selected, results);
    if Reachable(|all|, limit, n) {
      ReachablePages(results, all, limit, n);
      UniqueUnderReordering(selected, all);
    } else {
      ClampedPagesRepeat(results, all, limit, n);
    }
  }

  lemma AllResultsAlike(rows: seq<Row>, results: nat -> seq<Row>)
    requires UniqueIds(rows) && forall k: nat :: Ordered(rows, results(k))
    ensures forall k: nat :: results(k) == Sort(rows)
  {
    forall k: nat
      ensures results(k) == Sort(rows)
    {
      OrderIsUnique(rows, results(k));
    }
  }

  lemma SameRows(a: seq<Row>, b: seq<Row>)
    requires multiset(a) == multiset(b)
    ensures |a| == |b| && forall row :: row in a <==> row in b
  {
    assert |a| == |multiset(a)| == |multiset(b)| == |b|;
    forall row
      ensures row in a <==> row in b
    {
      assert row in a <==> row in multiset(a);
      assert row in b <==> row in multiset(b);
    }
  }

  lemma ClampedPagesRepeat(results: nat -> seq<Row>, all: seq<Row>, limit: nat, n: nat)
    requires 1 <= limit <= 200 && (forall k: nat :: results(k) == all) && Descending(all)
    requires n > 0 && (n - 1) * limit > MAX_OFFSET && |all| > MAX_OFFSET
    ensures Pages(results, limit, n) != all && !UniqueIds(Pages(results, limit, n))
  {
    var k := FirstClamped(limit);
    SmallerFactor(k, n - 1, limit);
    FirstClampedPage(results, all, limit, k);
    PagesOnlyGrow(results, limit, k + 1, n);
    var at := Min(k * limit, |all|);
    var pages := Pages(results, limit, n);
    assert pages[at] == pages[MAX_OFFSET] == all[MAX_OFFSET];
    assert at < |all| ==> Precedes(all[MAX_OFFSET], all[at]);
  }

  /** The first clamped page shows the row at the greatest offset again. */
  lemma FirstClampedPage(results: nat -> seq<Row>, all: seq<Row>, limit: nat, k: nat)
    requires 1 <= limit <= 200 && |all| > MAX_OFFSET
    requires results(k) == all && forall j: nat :: j < k ==> results(j) == all
    requires k > 0 && (k - 1) * limit <= MAX_OFFSET < k * limit
    ensures var at, pages := Min(k * limit, |all|), Pages(results, limit, k + 1);
      MAX_OFFSET < at < |pages| && pages[at] == pages[MAX_OFFSET] == all[MAX_OFFSET]
  {
    var at := Min(k * limit, |all|);
    PagesSoFar(results, all, limit, k);
    assert PageOffset(k * limit) == MAX_OFFSET;
    var page := Page(results(k), limit, k * limit);
    assert page != [] && page[0] == all[MAX_OFFSET];
    assert Pages(results, limit, k + 1) == all[..at] + page;
  }

  /** The first clamped page comes no later than any clamped page. */
  lemma SmallerFactor(k: nat, m: nat, limit: nat)
    requires limit > 0 && k > 0 && (k - 1) * limit <= MAX_OFFSET < m * limit
    ensures k <= m && k * limit <= m * limit
  {
    MulOrder(m, k - 1, limit);
    MulOrder(k, m, limit);
  }

  lemma MulOrder(a: int, b: int, c: nat)
    ensures a <= b ==> a * c <= b * c
  {
    assert b * c - a * c == (b - a) * c;
  }
}
