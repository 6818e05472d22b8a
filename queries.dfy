/**
 * The two table queries of the controllers as functions on the table's map:
 * `ToDoLists.ToListAsync()` (all rows, in ascending id order) and
 * `Where(t => t.UserId == userId)` on top of it.
 */
module Queries {
  import opened Wrappers
  import opened Models

  /** Every entry of the table is stored under its own id. */
  ghost predicate KeyedById(m: map<int, ToDoList>) {
    forall k :: k in m ==> m[k].id == k
  }

  /** Rows are listed in strictly ascending id order (so each id at most once). */
  ghost predicate IdsAscending(rows: seq<ToDoList>) {
    forall i, j :: 0 <= i < j < |rows| ==> rows[i].id < rows[j].id
  }

  /** The rows of the table whose key lies in [lo, hi), by ascending key. */
  function TableRows(m: map<int, ToDoList>, lo: int, hi: int): seq<ToDoList>
    decreases hi - lo
  {
    if lo >= hi then []
    else (if lo in m then [m[lo]] else []) + TableRows(m, lo + 1, hi)
  }

  /** The rows owned by `userId`, in their original order. */
  function OwnedBy(rows: seq<ToDoList>, userId: string): seq<ToDoList>
  {
    if rows == [] then []
    else (if rows[0].userId == Some(userId) then [rows[0]] else []) + OwnedBy(rows[1..], userId)
  }

  /** A row is listed exactly when it is stored under some key of the range. */
  lemma {:induction false} TableRowsContains(m: map<int, ToDoList>, lo: int, hi: int, x: ToDoList)
    ensures x in TableRows(m, lo, hi) <==> exists k :: lo <= k < hi && k in m && m[k] == x
    decreases hi - lo
  {
    if lo < hi {
      TableRowsContains(m, lo + 1, hi, x);
      var rest := TableRows(m, lo + 1, hi);
      assert TableRows(m, lo, hi) == (if lo in m then [m[lo]] else []) + rest;
      if x in TableRows(m, lo, hi) && x !in rest {
        assert lo in m && m[lo] == x;
      }
      if k :| lo <= k < hi && k in m && m[k] == x {
        if k > lo {
          assert x in rest;
        }
      }
    }
  }

  /**
   * When every key lies in [lo, hi), listing the range lists every stored
   * entry, and nothing else: each listed row is the entry stored under its id.
   */
  lemma {:induction false} TableRowsListsEveryEntry(m: map<int, ToDoList>, lo: int, hi: int)
    requires KeyedById(m)
    requires forall k :: k in m ==> lo <= k < hi
    ensures forall k :: k in m ==> m[k] in TableRows(m, lo, hi)
    ensures forall x :: x in TableRows(m, lo, hi) ==> x.id in m && m[x.id] == x
  {
    forall k | k in m
      ensures m[k] in TableRows(m, lo, hi)
    {
      TableRowsContains(m, lo, hi, m[k]);
    }
    forall x | x in TableRows(m, lo, hi)
      ensures x.id in m && m[x.id] == x
    {
      TableRowsContains(m, lo, hi, x);
    }
  }

  /** Listed rows keep their keys' ids, so they lie in the range. */
  lemma {:induction false} TableRowsIdsInRange(m: map<int, ToDoList>, lo: int, hi: int)
    requires KeyedById(m)
    ensures forall x :: x in TableRows(m, lo, hi) ==> lo <= x.id < hi
  {
    forall x | x in TableRows(m, lo, hi)
      ensures lo <= x.id < hi
    {
      TableRowsContains(m, lo, hi, x);
      var k :| lo <= k < hi && k in m && m[k] == x;
    }
  }

  /** The listing of a table keyed by id is in strictly ascending id order. */
  lemma {:induction false} TableRowsAscending(m: map<int, ToDoList>, lo: int, hi: int)
    requires KeyedById(m)
    ensures IdsAscending(TableRows(m, lo, hi))
    decreases hi - lo
  {
    if lo < hi {
      TableRowsAscending(m, lo + 1, hi);
      TableRowsIdsInRange(m, lo + 1, hi);
      var rest := TableRows(m, lo + 1, hi);
      var rows := TableRows(m, lo, hi);
      if lo in m {
        assert rows == [m[lo]] + rest;
        forall i, j | 0 <= i < j < |rows|
          ensures rows[i].id < rows[j].id
        {
          assert rows[j] == rest[j - 1];
          assert rest[j - 1] in rest;
          if i > 0 {
            assert rows[i] == rest[i - 1];
          }
        }
      } else {
        assert rows == rest;
      }
    }
  }

  /** A row is in the filtered list exactly when it is in the list and owned by `userId`. */
  lemma {:induction false} OwnedByContains(rows: seq<ToDoList>, userId: string, x: ToDoList)
    ensures x in OwnedBy(rows, userId) <==> x in rows && x.userId == Some(userId)
  {
    if rows != [] {
      OwnedByContains(rows[1..], userId, x);
      assert rows == [rows[0]] + rows[1..];
    }
  }

  /** Filtering keeps the ascending id order. */
  lemma {:induction false} OwnedByAscending(rows: seq<ToDoList>, userId: string)
    requires IdsAscending(rows)
    ensures IdsAscending(OwnedBy(rows, userId))
  {
    if rows != [] {
      var tail := rows[1..];
      assert IdsAscending(tail) by {
        forall i, j | 0 <= i < j < |tail| ensures tail[i].id < tail[j].id {
          assert tail[i] == rows[i + 1] && tail[j] == rows[j + 1];
        }
      }
      OwnedByAscending(tail, userId);
      var rest := OwnedBy(tail, userId);
      var out := OwnedBy(rows, userId);
      if rows[0].userId == Some(userId) {
        assert out == [rows[0]] + rest;
        forall i, j | 0 <= i < j < |out|
          ensures out[i].id < out[j].id
        {
          assert out[j] == rest[j - 1];
          OwnedByContains(tail, userId, rest[j - 1]);
          var t :| 0 <= t < |tail| && tail[t] == rest[j - 1];
          assert tail[t] == rows[t + 1];
          if i > 0 {
            assert out[i] == rest[i - 1];
          }
        }
      } else {
        assert out == rest;
      }
    }
  }

  /** Filtering a list with one more row in front. */
  lemma OwnedByCons(x: ToDoList, rows: seq<ToDoList>, userId: string)
    ensures OwnedBy([x] + rows, userId)
         == (if x.userId == Some(userId) then [x] else []) + OwnedBy(rows, userId)
  {
    assert ([x] + rows)[1..] == rows;
  }

  /** The entry under key k exists and belongs to `userId`. */
  ghost predicate OwnsEntry(m: map<int, ToDoList>, k: int, userId: string) {
    k in m && m[k].userId == Some(userId)
  }

  /**
   * Non-interference: a user's filtered listing depends only on that user's own
   * entries, so whatever other users store never shows up in it or changes it.
   */
  lemma {:induction false} OwnedRowsDependOnlyOnOwnEntries(
    m1: map<int, ToDoList>, m2: map<int, ToDoList>, lo: int, hi: int, userId: string)
    requires forall k :: OwnsEntry(m1, k, userId) ==> OwnsEntry(m2, k, userId) && m2[k] == m1[k]
    requires forall k :: OwnsEntry(m2, k, userId) ==> OwnsEntry(m1, k, userId)
    ensures OwnedBy(TableRows(m1, lo, hi), userId) == OwnedBy(TableRows(m2, lo, hi), userId)
    decreases hi - lo
  {
    if lo < hi {
      OwnedRowsDependOnlyOnOwnEntries(m1, m2, lo + 1, hi, userId);
      var t1 := TableRows(m1, lo + 1, hi);
      var t2 := TableRows(m2, lo + 1, hi);
      if lo in m1 {
        assert TableRows(m1, lo, hi) == [m1[lo]] + t1;
        OwnedByCons(m1[lo], t1, userId);
      } else {
        assert TableRows(m1, lo, hi) == t1;
      }
      if lo in m2 {
        assert TableRows(m2, lo, hi) == [m2[lo]] + t2;
        OwnedByCons(m2[lo], t2, userId);
      } else {
        assert TableRows(m2, lo, hi) == t2;
      }
    }
  }

  /** Keys beyond the last stored one add nothing to the listing. */
  lemma {:induction false} TableRowsIgnoreEmptyTail(m: map<int, ToDoList>, lo: int, hi: int, hi': int)
    requires hi <= hi'
    requires forall k :: hi <= k < hi' ==> k !in m
    ensures TableRows(m, lo, hi') == TableRows(m, lo, hi)
    decreases hi' - lo
  {
    if lo < hi' {
      TableRowsIgnoreEmptyTail(m, lo + 1, hi, hi');
      if lo >= hi {
        assert lo !in m;
        assert TableRows(m, lo + 1, hi) == [];
      }
    }
  }

  /**
   * A user's listing is the same in any two tables that hold the same rows
   * for that user, however much else differs between them, the bound of the
   * id range included.
   */
  lemma OwnedListingDependsOnlyOnOwnEntries(
    m1: map<int, ToDoList>, n1: int, m2: map<int, ToDoList>, n2: int, userId: string)
    requires forall k :: k in m1 ==> k < n1
    requires forall k :: k in m2 ==> k < n2
    requires forall k :: OwnsEntry(m1, k, userId) ==> OwnsEntry(m2, k, userId) && m2[k] == m1[k]
    requires forall k :: OwnsEntry(m2, k, userId) ==> OwnsEntry(m1, k, userId)
    ensures OwnedBy(TableRows(m1, 1, n1), userId) == OwnedBy(TableRows(m2, 1, n2), userId)
  {
    var n := if n1 < n2 then n2 else n1;
    TableRowsIgnoreEmptyTail(m1, 1, n1, n);
    TableRowsIgnoreEmptyTail(m2, 1, n2, n);
    OwnedRowsDependOnlyOnOwnEntries(m1, m2, 1, n, userId);
  }

  /** Adding a row that another user owns leaves a user's listing as it was. */
  lemma ForeignInsertKeepsOwnedListing(
    m: map<int, ToDoList>, n: int, x: ToDoList, n': int, userId: string)
    requires forall k :: k in m ==> k < n
    requires n <= n' && x.id < n'
    requires x.id !in m && x.userId != Some(userId)
    ensures OwnedBy(TableRows(m[x.id := x], 1, n'), userId) == OwnedBy(TableRows(m, 1, n), userId)
  {
    var m' := m[x.id := x];
    forall k | OwnsEntry(m', k, userId) ensures OwnsEntry(m, k, userId) && m[k] == m'[k] {
      assert k != x.id;
    }
    OwnedListingDependsOnlyOnOwnEntries(m', n', m, n, userId);
  }

  /** Removing a row that the user does not own leaves that user's listing as it was. */
  lemma ForeignRemovalKeepsOwnedListing(m: map<int, ToDoList>, n: int, id: int, userId: string)
    requires forall k :: k in m ==> k < n
    requires !OwnsEntry(m, id, userId)
    ensures OwnedBy(TableRows(m - {id}, 1, n), userId) == OwnedBy(TableRows(m, 1, n), userId)
  {
    var m' := m - {id};
    forall k | OwnsEntry(m, k, userId) ensures OwnsEntry(m', k, userId) && m'[k] == m[k] {
      assert k != id;
    }
    OwnedListingDependsOnlyOnOwnEntries(m, n, m', n, userId);
  }
}
