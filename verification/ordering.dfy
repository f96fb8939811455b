/** What `ORDER BY` gives: the rows of a table in a strict order, and how far down each one is. */
module Ordering {
  import opened Wrappers

  ghost predicate Strict<T(!new)>(less: (T, T) -> bool) {
    && (forall a :: !less(a, a))
    && (forall a, b, c | less(a, b) && less(b, c) :: less(a, c))
  }

  /** No two rows are equal in the order. */
  ghost predicate Apart<T>(less: (T, T) -> bool, rows: seq<T>) {
    forall i, j | 0 <= i < j < |rows| :: less(rows[i], rows[j]) || less(rows[j], rows[i])
  }

  ghost predicate Ascending<T>(less: (T, T) -> bool, rows: seq<T>) {
    forall i, j | 0 <= i < j < |rows| :: less(rows[i], rows[j])
  }

  function Insert<T>(less: (T, T) -> bool, rows: seq<T>, row: T): seq<T> {
    if rows == [] || less(row, rows[0]) then [row] + rows else [rows[0]] + Insert(less, rows[1..], row)
  }

  function Sort<T>(less: (T, T) -> bool, rows: seq<T>): seq<T> {
    if rows == [] then [] else Insert(less, Sort(less, rows[..|rows| - 1]), Last(rows))
  }

  /** How many rows come before `row`. */
  function CountBefore<T>(less: (T, T) -> bool, rows: seq<T>, row: T): nat {
    if rows == [] then 0
    else CountBefore(less, rows[..|rows| - 1], row) + if less(Last(rows), row) then 1 else 0
  }

  lemma {:induction false} InsertKeeps<T>(less: (T, T) -> bool, rows: seq<T>, row: T)
    ensures multiset(Insert(less, rows, row)) == multiset(rows) + multiset{row}
    ensures |Insert(less, rows, row)| == |rows| + 1
    ensures forall x :: x in Insert(less, rows, row) <==> x in rows || x == row
  {
    if rows != [] && !less(row, rows[0]) {
      InsertKeeps(less, rows[1..], row);
      assert rows == [rows[0]] + rows[1..];
    }
  }

  lemma {:induction false} SortKeeps<T>(less: (T, T) -> bool, rows: seq<T>)
    ensures multiset(Sort(less, rows)) == multiset(rows) && |Sort(less, rows)| == |rows|
    ensures forall x :: x in Sort(less, rows) <==> x in rows
  {
    if rows != [] {
      SortKeeps(less, rows[..|rows| - 1]);
      InsertKeeps(less, Sort(less, rows[..|rows| - 1]), Last(rows));
      assert rows == rows[..|rows| - 1] + [Last(rows)];
    }
  }

  lemma AscendingCons<T(!new)>(less: (T, T) -> bool, first: T, rest: seq<T>)
    requires Ascending(less, rest) && forall x | x in rest :: less(first, x)
    ensures Ascending(less, [first] + rest)
  {
  }

  lemma {:induction false} InsertAscends<T(!new)>(less: (T, T) -> bool, rows: seq<T>, row: T)
    requires Strict(less) && Ascending(less, rows) && forall x | x in rows :: less(x, row) || less(row, x)
    ensures Ascending(less, Insert(less, rows, row))
  {
    hide Ascending;
    if rows == [] || less(row, rows[0]) {
      FirstIsLeast(less, rows);
      AscendingCons(less, row, rows);
    } else {
      FirstIsLeast(less, rows);
      InsertAscends(less, rows[1..], row);
      InsertKeeps(less, rows[1..], row);
      AscendingCons(less, rows[0], Insert(less, rows[1..], row));
    }
  }

  lemma FirstIsLeast<T(!new)>(less: (T, T) -> bool, rows: seq<T>)
    requires Ascending(less, rows)
    ensures rows != [] ==> Ascending(less, rows[1..]) && forall x | x in rows :: x == rows[0] || less(rows[0], x)
    ensures forall x | x in (if rows == [] then [] else rows[1..]) :: less(rows[0], x)
  {
  }

  lemma {:induction false} SortAscends<T(!new)>(less: (T, T) -> bool, rows: seq<T>)
    requires Strict(less) && Apart(less, rows)
    ensures Ascending(less, Sort(less, rows))
  {
    if rows != [] {
      var front := rows[..|rows| - 1];
      SortAscends(less, front);
      SortKeeps(less, front);
      InsertAscends(less, Sort(less, front), Last(rows));
    }
  }

  lemma {:induction false} AscendingUnique<T(!new)>(less: (T, T) -> bool, a: seq<T>, b: seq<T>)
    requires Strict(less) && Ascending(less, a) && Ascending(less, b) && forall x :: x in a <==> x in b
    ensures a == b
  {
    if a == [] {
      FirstIsMember(b);
    } else if b == [] {
      FirstIsMember(a);
    } else {
      assert a[0] in b && b[0] in a;
      assert a[0] == b[0];
      assert a == [a[0]] + a[1..] && b == [b[0]] + b[1..];
      assert forall x | x in a[1..] :: less(a[0], x);
      assert forall x | x in b[1..] :: less(b[0], x);
      forall x ensures x in a[1..] <==> x in b[1..] {
        assert x in a <==> x in b;
      }
      AscendingUnique(less, a[1..], b[1..]);
    }
  }

  lemma {:induction false} CountBeforeSnoc<T>(less: (T, T) -> bool, rows: seq<T>, last: T, row: T)
    ensures CountBefore(less, rows + [last], row) == CountBefore(less, rows, row) + if less(last, row) then 1 else 0
  {
  }

  lemma {:induction false} CountBeforeCons<T>(less: (T, T) -> bool, first: T, rows: seq<T>, row: T)
    ensures CountBefore(less, [first] + rows, row) == CountBefore(less, rows, row) + if less(first, row) then 1 else 0
  {
    if rows == [] {
      CountBeforeSnoc(less, [], first, row);
      assert [first] + rows == [] + [first];
    } else {
      CountBeforeCons(less, first, rows[..|rows| - 1], row);
      CountBeforeSnoc(less, [first] + rows[..|rows| - 1], Last(rows), row);
      assert [first] + rows == [first] + rows[..|rows| - 1] + [Last(rows)];
    }
  }

  lemma {:induction false} InsertKeepsCount<T>(less: (T, T) -> bool, rows: seq<T>, last: T, row: T)
    ensures CountBefore(less, Insert(less, rows, last), row) == CountBefore(less, rows, row)
        + if less(last, row) then 1 else 0
  {
    if rows == [] || less(last, rows[0]) {
      CountBeforeCons(less, last, rows, row);
    } else {
      InsertKeepsCount(less, rows[1..], last, row);
      CountBeforeCons(less, rows[0], Insert(less, rows[1..], last), row);
      CountBeforeCons(less, rows[0], rows[1..], row);
      assert rows == [rows[0]] + rows[1..];
    }
  }

  lemma {:induction false} SortKeepsCount<T>(less: (T, T) -> bool, rows: seq<T>, row: T)
    ensures CountBefore(less, Sort(less, rows), row) == CountBefore(less, rows, row)
  {
    if rows != [] {
      SortKeepsCount(less, rows[..|rows| - 1], row);
      InsertKeepsCount(less, Sort(less, rows[..|rows| - 1]), Last(rows), row);
    }
  }

  lemma {:induction false} CountInAscending<T(!new)>(less: (T, T) -> bool, rows: seq<T>, i: nat)
    requires Strict(less) && Ascending(less, rows) && i < |rows|
    ensures CountBefore(less, rows, rows[i]) == i
  {
    var front := rows[..|rows| - 1];
    assert rows == front + [Last(rows)];
    if i < |front| {
      CountInAscending(less, front, i);
      assert front[i] == rows[i] && less(rows[i], Last(rows)) && !less(Last(rows), rows[i]);
    } else {
      CountAll(less, front, Last(rows));
    }
  }

  lemma {:induction false} CountAll<T>(less: (T, T) -> bool, rows: seq<T>, row: T)
    requires forall x | x in rows :: less(x, row)
    ensures CountBefore(less, rows, row) == |rows|
  {
    if rows != [] {
      assert rows == rows[..|rows| - 1] + [Last(rows)];
      CountAll(less, rows[..|rows| - 1], row);
    }
  }

  /** The first `n` in order are exactly the rows that fewer than `n` rows precede. */
  lemma RankIsPosition<T(!new)>(less: (T, T) -> bool, rows: seq<T>, n: nat, row: T)
    requires Strict(less) && Apart(less, rows) && row in rows
    ensures var sorted := Sort(less, rows);
            row in sorted[..if n <= |sorted| then n else |sorted|] <==> CountBefore(less, rows, row) < n
  {
    SortAscends(less, rows);
    SortKeeps(less, rows);
    SortKeepsCount(less, rows, row);
    var sorted := Sort(less, rows);
    var top := if n <= |sorted| then n else |sorted|;
    var i :| 0 <= i < |sorted| && sorted[i] == row;
    CountInAscending(less, sorted, i);
    if i < top {
      assert sorted[..top][i] == row;
    } else {
      assert forall j | 0 <= j < top :: less(sorted[j], sorted[i]);
    }
  }

  // ---------------------------------------------------------------------------------------
  // Text
  // ---------------------------------------------------------------------------------------

  /** Text by code point, as SQLite compares it. */
  predicate TextLess(a: string, b: string) {
    b != "" && (a == "" || a[0] < b[0] || (a[0] == b[0] && TextLess(a[1..], b[1..])))
  }

  lemma {:induction false} TextOrder(a: string, b: string, c: string)
    ensures !TextLess(a, a)
    ensures TextLess(a, b) && TextLess(b, c) ==> TextLess(a, c)
    ensures a == b || TextLess(a, b) || TextLess(b, a)
  {
    if a != "" && b != "" {
      TextOrder(a[1..], b[1..], if c != "" then c[1..] else "");
      assert a == [a[0]] + a[1..] && b == [b[0]] + b[1..];
    } else if a != "" {
      TextOrder(a[1..], "", "");
    }
  }

  lemma TextIsStrict()
    ensures Strict(TextLess)
    ensures forall a, b :: a == b || TextLess(a, b) || TextLess(b, a)
  {
    forall a, b, c ensures !TextLess(a, a) && (TextLess(a, b) && TextLess(b, c) ==> TextLess(a, c))
        && (a == b || TextLess(a, b) || TextLess(b, a)) {
      TextOrder(a, b, c);
    }
  }
}
