/**
 * Sharded, resumable key cursors over a table held as a sequence in primary-key order.
 *
 * Every fetcher of the reindexer asks the database for a page of rows with
 * `key > lastId AND key % n = shard ORDER BY key LIMIT limit`, moves `lastId` to the key of
 * the last row it saw, and stops on the first empty page. The geographic fetchers put the
 * LIMIT on a key sub-query and read every joined row of the selected keys, so one key's
 * rows (a key group) never straddle two pages. Query execution itself is not modelled: the
 * functions here say which rows a query returns.
 */
module Cursor {
  import opened Base

  /** `key % n = shard` as MySQL evaluates it: with n = 0 the remainder is NULL and no row matches. */
  predicate InShard(key: nat, n: nat, shard: nat)
  {
    n > 0 && key % n == shard
  }

  function Id(k: nat): nat
  {
    k
  }

  ghost predicate SortedBy<T(!new)>(s: seq<T>, key: T -> nat)
  {
    forall i, j :: 0 <= i < j < |s| ==> key(s[i]) <= key(s[j])
  }

  ghost predicate StrictlySortedBy<T(!new)>(s: seq<T>, key: T -> nat)
  {
    forall i, j :: 0 <= i < j < |s| ==> key(s[i]) < key(s[j])
  }

  ghost function KeysOf<T(!new)>(s: seq<T>, key: T -> nat): set<nat>
  {
    set x | x in s :: key(x)
  }

  /** The rows of the shard whose key lies strictly after the cursor, in table order. */
  function RowsAfter<T(!new)>(table: seq<T>, key: T -> nat, lastId: nat, n: nat, shard: nat): (r: seq<T>)
    ensures |r| <= |table|
  {
    if table == [] then []
    else
      (if key(table[0]) > lastId && InShard(key(table[0]), n, shard) then [table[0]] else [])
      + RowsAfter(table[1..], key, lastId, n, shard)
  }

  /** The rows of the shard whose key lies in (lo, hi], in table order. */
  function RowsBetween<T(!new)>(table: seq<T>, key: T -> nat, lo: nat, hi: nat, n: nat, shard: nat): (r: seq<T>)
  {
    if table == [] then []
    else
      (if lo < key(table[0]) <= hi && InShard(key(table[0]), n, shard) then [table[0]] else [])
      + RowsBetween(table[1..], key, lo, hi, n, shard)
  }

  /** A row is kept exactly when it is of the shard and after the cursor. */
  lemma {:induction false} RowsAfterMembers<T(!new)>(table: seq<T>, key: T -> nat, lastId: nat, n: nat, shard: nat)
    ensures forall x :: x in RowsAfter(table, key, lastId, n, shard) <==> x in table && key(x) > lastId && InShard(key(x), n, shard)
    decreases |table|
  {
    if table != [] {
      RowsAfterMembers(table[1..], key, lastId, n, shard);
      assert table == [table[0]] + table[1..];
    }
  }

  lemma {:induction false} RowsBetweenMembers<T(!new)>(table: seq<T>, key: T -> nat, lo: nat, hi: nat, n: nat, shard: nat)
    ensures forall x :: x in RowsBetween(table, key, lo, hi, n, shard) <==> x in table && lo < key(x) <= hi && InShard(key(x), n, shard)
    decreases |table|
  {
    if table != [] {
      RowsBetweenMembers(table[1..], key, lo, hi, n, shard);
      assert table == [table[0]] + table[1..];
    }
  }

  /** SQL LIMIT. */
  function Take<T(!new)>(s: seq<T>, limit: nat): (r: seq<T>)
    ensures |r| == if limit < |s| then limit else |s|
    ensures r == s[..|r|]
  {
    if limit < |s| then s[..limit] else s
  }

  // ------------------------------------------------------------ facts about filters

  lemma {:induction false} RowsAfterAppend<T(!new)>(a: seq<T>, b: seq<T>, key: T -> nat, lastId: nat, n: nat, shard: nat)
    ensures RowsAfter(a + b, key, lastId, n, shard) == RowsAfter(a, key, lastId, n, shard) + RowsAfter(b, key, lastId, n, shard)
    decreases |a|
  {
    if a == [] {
      assert a + b == b;
    } else {
      assert (a + b)[0] == a[0] && (a + b)[1..] == a[1..] + b;
      RowsAfterAppend(a[1..], b, key, lastId, n, shard);
    }
  }

  /** A row is kept by a later cursor only if an earlier cursor kept it. */
  lemma {:induction false} RowsAfterTwice<T(!new)>(table: seq<T>, key: T -> nat, a: nat, b: nat, n: nat, shard: nat)
    requires a <= b
    ensures RowsAfter(RowsAfter(table, key, a, n, shard), key, b, n, shard) == RowsAfter(table, key, b, n, shard)
    decreases |table|
  {
    if table != [] {
      RowsAfterTwice(table[1..], key, a, b, n, shard);
      var h := table[0];
      var head := if key(h) > a && InShard(key(h), n, shard) then [h] else [];
      RowsAfterAppend(head, RowsAfter(table[1..], key, a, n, shard), key, b, n, shard);
    }
  }

  lemma {:induction false} RowsAfterNone<T(!new)>(s: seq<T>, key: T -> nat, m: nat, n: nat, shard: nat)
    requires forall x :: x in s ==> key(x) <= m
    ensures RowsAfter(s, key, m, n, shard) == []
    decreases |s|
  {
    if s != [] {
      assert s[0] in s;
      assert forall x :: x in s[1..] ==> x in s;
      RowsAfterNone(s[1..], key, m, n, shard);
    }
  }

  lemma {:induction false} RowsAfterAll<T(!new)>(s: seq<T>, key: T -> nat, m: nat, n: nat, shard: nat)
    requires forall x :: x in s ==> key(x) > m && InShard(key(x), n, shard)
    ensures RowsAfter(s, key, m, n, shard) == s
    decreases |s|
  {
    if s != [] {
      assert s[0] in s;
      assert forall x :: x in s[1..] ==> x in s;
      RowsAfterAll(s[1..], key, m, n, shard);
      assert [s[0]] + s[1..] == s;
    }
  }

  lemma {:induction false} RowsAfterSorted<T(!new)>(table: seq<T>, key: T -> nat, lastId: nat, n: nat, shard: nat)
    requires SortedBy(table, key)
    ensures SortedBy(RowsAfter(table, key, lastId, n, shard), key)
    decreases |table|
  {
    if table != [] {
      var rest := RowsAfter(table[1..], key, lastId, n, shard);
      assert SortedBy(table[1..], key) by {
        forall i, j | 0 <= i < j < |table[1..]| ensures key(table[1..][i]) <= key(table[1..][j]) {
          assert table[1..][i] == table[i + 1] && table[1..][j] == table[j + 1];
        }
      }
      RowsAfterSorted(table[1..], key, lastId, n, shard);
      RowsAfterMembers(table[1..], key, lastId, n, shard);
      forall x | x in rest ensures key(table[0]) <= key(x) {
        var j :| 0 <= j < |table[1..]| && table[1..][j] == x;
        assert table[1..][j] == table[j + 1];
      }
    }
  }

  lemma {:induction false} RowsAfterStrictlySorted<T(!new)>(table: seq<T>, key: T -> nat, lastId: nat, n: nat, shard: nat)
    requires StrictlySortedBy(table, key)
    ensures StrictlySortedBy(RowsAfter(table, key, lastId, n, shard), key)
    decreases |table|
  {
    if table != [] {
      var rest := RowsAfter(table[1..], key, lastId, n, shard);
      assert StrictlySortedBy(table[1..], key) by {
        forall i, j | 0 <= i < j < |table[1..]| ensures key(table[1..][i]) < key(table[1..][j]) {
          assert table[1..][i] == table[i + 1] && table[1..][j] == table[j + 1];
        }
      }
      RowsAfterStrictlySorted(table[1..], key, lastId, n, shard);
      RowsAfterMembers(table[1..], key, lastId, n, shard);
      forall x | x in rest ensures key(table[0]) < key(x) {
        var j :| 0 <= j < |table[1..]| && table[1..][j] == x;
        assert table[1..][j] == table[j + 1];
      }
    }
  }

  /** Moving the cursor forward never lets more rows in. */
  lemma {:induction false} RowsAfterMonotone<T(!new)>(table: seq<T>, key: T -> nat, a: nat, b: nat, n: nat, shard: nat)
    requires a <= b
    ensures |RowsAfter(table, key, b, n, shard)| <= |RowsAfter(table, key, a, n, shard)|
    decreases |table|
  {
    if table != [] {
      RowsAfterMonotone(table[1..], key, a, b, n, shard);
    }
  }

  /** Moving the cursor past a row of the shard strictly shrinks what is left to fetch. */
  lemma {:induction false} RowsAfterShrinks<T(!new)>(table: seq<T>, key: T -> nat, a: nat, b: nat, n: nat, shard: nat, x: T)
    requires a <= b && x in table && a < key(x) <= b && InShard(key(x), n, shard)
    ensures |RowsAfter(table, key, b, n, shard)| < |RowsAfter(table, key, a, n, shard)|
    decreases |table|
  {
    if table[0] == x {
      RowsAfterMonotone(table[1..], key, a, b, n, shard);
    } else {
      assert x in table[1..];
      RowsAfterShrinks(table[1..], key, a, b, n, shard, x);
    }
  }

  // ------------------------------------------------------- one row per key (users, geonames)

  /** One page of `key > lastId AND key % n = shard ORDER BY key LIMIT limit`. */
  function Page<T(!new)>(table: seq<T>, key: T -> nat, lastId: nat, n: nat, shard: nat, limit: nat): (page: seq<T>)
    ensures |page| <= limit
    ensures forall x :: x in page ==> x in table && key(x) > lastId && InShard(key(x), n, shard)
  {
    RowsAfterMembers(table, key, lastId, n, shard);
    Take(RowsAfter(table, key, lastId, n, shard), limit)
  }

  /**
   * The rows a cursor loop reads from `lastId` on: page after page, the cursor moving to the
   * key of each page's last row, until a page comes back empty.
   */
  function Visited<T(!new)>(table: seq<T>, key: T -> nat, lastId: nat, n: nat, shard: nat, limit: nat): seq<T>
    decreases |RowsAfter(table, key, lastId, n, shard)|
  {
    var page := Page(table, key, lastId, n, shard, limit);
    if page == [] then []
    else
      var next := key(Last(page));
      RowsAfterShrinks(table, key, lastId, next, n, shard, Last(page));
      page + Visited(table, key, next, n, shard, limit)
  }

  /**
   * Over a table with unique keys in ascending order, the cursor loop reads every row of its
   * shard after the starting cursor exactly once, in key order, whatever the page size.
   */
  lemma {:induction false} VisitedIsShard<T(!new)>(table: seq<T>, key: T -> nat, lastId: nat, n: nat, shard: nat, limit: nat)
    requires StrictlySortedBy(table, key)
    requires limit > 0
    ensures Visited(table, key, lastId, n, shard, limit) == RowsAfter(table, key, lastId, n, shard)
    decreases |RowsAfter(table, key, lastId, n, shard)|
  {
    var r := RowsAfter(table, key, lastId, n, shard);
    var page := Page(table, key, lastId, n, shard, limit);
    if r != [] {
      var next := key(Last(page));
      RowsAfterPage(table, key, lastId, n, shard, limit);
      RowsAfterShrinks(table, key, lastId, next, n, shard, Last(page));
      VisitedIsShard(table, key, next, n, shard, limit);
      assert Visited(table, key, lastId, n, shard, limit) == page + Visited(table, key, next, n, shard, limit);
      assert r == page + r[|page|..];
    }
  }

  /** After a non-empty page, the cursor at its last key leaves exactly the rest of the shard. */
  lemma RowsAfterPage<T(!new)>(table: seq<T>, key: T -> nat, lastId: nat, n: nat, shard: nat, limit: nat)
    requires StrictlySortedBy(table, key)
    requires limit > 0 && RowsAfter(table, key, lastId, n, shard) != []
    ensures Page(table, key, lastId, n, shard, limit) != []
    ensures RowsAfter(table, key, key(Last(Page(table, key, lastId, n, shard, limit))), n, shard)
            == RowsAfter(table, key, lastId, n, shard)[|Page(table, key, lastId, n, shard, limit)|..]
  {
    var r := RowsAfter(table, key, lastId, n, shard);
    var page := Page(table, key, lastId, n, shard, limit);
    var k := |page|;
    var rest := r[k..];
    var next := key(Last(page));
    RowsAfterStrictlySorted(table, key, lastId, n, shard);
    RowsAfterMembers(table, key, lastId, n, shard);
    assert r == page + rest;
    assert next == key(r[k - 1]);
    assert next > lastId by {
      assert r[k - 1] in r;
    }
    forall x | x in page ensures key(x) <= next {
      var i :| 0 <= i < k && page[i] == x;
      assert r[i] == x;
    }
    forall x | x in rest ensures key(x) > next && InShard(key(x), n, shard) {
      var i :| 0 <= i < |rest| && rest[i] == x;
      assert r[k + i] == x;
      assert x in r;
    }
    RowsAfterAppend(page, rest, key, next, n, shard);
    RowsAfterNone(page, key, next, n, shard);
    RowsAfterAll(rest, key, next, n, shard);
    RowsAfterTwice(table, key, lastId, next, n, shard);
  }

  /** A LIMIT of zero returns an empty first page, so the loop reads nothing. */
  lemma VisitedLimitZero<T(!new)>(table: seq<T>, key: T -> nat, lastId: nat, n: nat, shard: nat)
    ensures Visited(table, key, lastId, n, shard, 0) == []
  {
  }

  // ------------------------------------------- many rows per key, LIMIT on keys (geo fetch)

  /** The key sub-query: `SELECT key ... WHERE key > lastId AND key % n = shard ORDER BY key LIMIT limit`. */
  function SelectedKeys(keys: seq<nat>, lastId: nat, n: nat, shard: nat, limit: nat): (sel: seq<nat>)
    ensures forall k :: k in sel ==> k in keys && k > lastId && InShard(k, n, shard)
  {
    RowsAfterMembers(keys, Id, lastId, n, shard);
    Take(RowsAfter(keys, Id, lastId, n, shard), limit)
  }

  /** The outer query: every joined row whose key the sub-query selected, in row order. */
  function RowsWithKeyIn<T(!new)>(rows: seq<T>, key: T -> nat, sel: seq<nat>): (r: seq<T>)
  {
    if rows == [] then []
    else (if key(rows[0]) in sel then [rows[0]] else []) + RowsWithKeyIn(rows[1..], key, sel)
  }

  lemma {:induction false} RowsWithKeyInMembers<T(!new)>(rows: seq<T>, key: T -> nat, sel: seq<nat>)
    ensures forall x :: x in RowsWithKeyIn(rows, key, sel) <==> x in rows && key(x) in sel
    decreases |rows|
  {
    if rows != [] {
      RowsWithKeyInMembers(rows[1..], key, sel);
      assert rows == [rows[0]] + rows[1..];
    }
  }

  lemma {:induction false} RowsWithNoKeys<T(!new)>(rows: seq<T>, key: T -> nat)
    ensures RowsWithKeyIn(rows, key, []) == []
    decreases |rows|
  {
    if rows != [] {
      RowsWithNoKeys(rows[1..], key);
    }
  }

  function GroupPage<T(!new)>(keys: seq<nat>, rows: seq<T>, key: T -> nat, lastId: nat, n: nat, shard: nat, limit: nat): (page: seq<T>)
    ensures forall x :: x in page ==> x in rows && key(x) > lastId && InShard(key(x), n, shard)
  {
    RowsWithKeyInMembers(rows, key, SelectedKeys(keys, lastId, n, shard, limit));
    RowsWithKeyIn(rows, key, SelectedKeys(keys, lastId, n, shard, limit))
  }

  /** The non-empty pages a grouped cursor loop reads from `lastId` on, in order. */
  function GroupPages<T(!new)>(keys: seq<nat>, rows: seq<T>, key: T -> nat, lastId: nat, n: nat, shard: nat, limit: nat): (pages: seq<seq<T>>)
    ensures forall i :: 0 <= i < |pages| ==> pages[i] != []
    decreases |RowsAfter(rows, key, lastId, n, shard)|
  {
    var page := GroupPage(keys, rows, key, lastId, n, shard, limit);
    if page == [] then []
    else
      var next := key(Last(page));
      RowsAfterShrinks(rows, key, lastId, next, n, shard, Last(page));
      [page] + GroupPages(keys, rows, key, next, n, shard, limit)
  }

  /** Each page starts strictly after the last key of the page before. */
  lemma {:induction false} GroupPagesAfter<T(!new)>(keys: seq<nat>, rows: seq<T>, key: T -> nat, lastId: nat, n: nat, shard: nat, limit: nat)
    ensures forall x :: x in Flatten(GroupPages(keys, rows, key, lastId, n, shard, limit)) ==> key(x) > lastId
    decreases |RowsAfter(rows, key, lastId, n, shard)|
  {
    var pages := GroupPages(keys, rows, key, lastId, n, shard, limit);
    if pages != [] {
      var page := pages[0];
      var next := key(Last(page));
      RowsAfterShrinks(rows, key, lastId, next, n, shard, Last(page));
      GroupPagesAfter(keys, rows, key, next, n, shard, limit);
      assert pages[1..] == GroupPages(keys, rows, key, next, n, shard, limit);
      assert Flatten(pages) == page + Flatten(pages[1..]);
    }
  }

  lemma {:induction false} RowsWithKeyInIsBetween<T(!new)>(rows: seq<T>, key: T -> nat, sel: seq<nat>, lo: nat, hi: nat, n: nat, shard: nat)
    requires forall x :: x in rows ==> (key(x) in sel <==> lo < key(x) <= hi && InShard(key(x), n, shard))
    ensures RowsWithKeyIn(rows, key, sel) == RowsBetween(rows, key, lo, hi, n, shard)
    decreases |rows|
  {
    if rows != [] {
      assert rows[0] in rows;
      assert forall x :: x in rows[1..] ==> x in rows;
      RowsWithKeyInIsBetween(rows[1..], key, sel, lo, hi, n, shard);
    }
  }

  lemma {:induction false} SortedTail<T(!new)>(rows: seq<T>, key: T -> nat)
    requires rows != [] && SortedBy(rows, key)
    ensures SortedBy(rows[1..], key)
    ensures forall x :: x in rows[1..] ==> key(rows[0]) <= key(x)
  {
    forall i, j | 0 <= i < j < |rows[1..]| ensures key(rows[1..][i]) <= key(rows[1..][j]) {
      assert rows[1..][i] == rows[i + 1] && rows[1..][j] == rows[j + 1];
    }
    forall x | x in rows[1..] ensures key(rows[0]) <= key(x) {
      var j :| 0 <= j < |rows[1..]| && rows[1..][j] == x;
      assert rows[1..][j] == rows[j + 1];
    }
  }

  lemma {:induction false} RowsBetweenNone<T(!new)>(s: seq<T>, key: T -> nat, lo: nat, hi: nat, n: nat, shard: nat)
    requires forall x :: x in s ==> key(x) > hi
    ensures RowsBetween(s, key, lo, hi, n, shard) == []
    decreases |s|
  {
    if s != [] {
      assert s[0] in s;
      assert forall x :: x in s[1..] ==> x in s;
      RowsBetweenNone(s[1..], key, lo, hi, n, shard);
    }
  }

  /** With every key above `hi`, a cursor anywhere in [lo, hi] sees the same rows. */
  lemma {:induction false} RowsAfterAllAbove<T(!new)>(s: seq<T>, key: T -> nat, lo: nat, hi: nat, n: nat, shard: nat)
    requires lo <= hi && forall x :: x in s ==> key(x) > hi
    ensures RowsAfter(s, key, lo, n, shard) == RowsAfter(s, key, hi, n, shard)
    decreases |s|
  {
    if s != [] {
      assert s[0] in s;
      assert forall x :: x in s[1..] ==> x in s;
      RowsAfterAllAbove(s[1..], key, lo, hi, n, shard);
    }
  }

  /** Over rows in key order, the shard after `lo` is the part up to `hi` followed by the part after it. */
  lemma {:induction false} RowsAfterSplit<T(!new)>(rows: seq<T>, key: T -> nat, lo: nat, hi: nat, n: nat, shard: nat)
    requires SortedBy(rows, key) && lo <= hi
    ensures RowsAfter(rows, key, lo, n, shard) == RowsBetween(rows, key, lo, hi, n, shard) + RowsAfter(rows, key, hi, n, shard)
    decreases |rows|
  {
    if rows != [] {
      var h, t := rows[0], rows[1..];
      SortedTail(rows, key);
      if key(h) > hi {
        assert forall x :: x in rows ==> x == h || x in t;
        RowsBetweenNone(rows, key, lo, hi, n, shard);
        RowsAfterAllAbove(rows, key, lo, hi, n, shard);
      } else {
        RowsAfterSplit(t, key, lo, hi, n, shard);
      }
    }
  }

  lemma {:induction false} RowsBetweenSorted<T(!new)>(rows: seq<T>, key: T -> nat, lo: nat, hi: nat, n: nat, shard: nat)
    requires SortedBy(rows, key)
    ensures SortedBy(RowsBetween(rows, key, lo, hi, n, shard), key)
    decreases |rows|
  {
    if rows != [] {
      var rest := RowsBetween(rows[1..], key, lo, hi, n, shard);
      assert SortedBy(rows[1..], key) by {
        forall i, j | 0 <= i < j < |rows[1..]| ensures key(rows[1..][i]) <= key(rows[1..][j]) {
          assert rows[1..][i] == rows[i + 1] && rows[1..][j] == rows[j + 1];
        }
      }
      RowsBetweenSorted(rows[1..], key, lo, hi, n, shard);
      RowsBetweenMembers(rows[1..], key, lo, hi, n, shard);
      forall x | x in rest ensures key(rows[0]) <= key(x) {
        var j :| 0 <= j < |rows[1..]| && rows[1..][j] == x;
        assert rows[1..][j] == rows[j + 1];
      }
    }
  }

  /** A row of the shard after the cursor would put its key into the key sub-query. */
  lemma NoKeysNoRows<T(!new)>(keys: seq<nat>, rows: seq<T>, key: T -> nat, lastId: nat, n: nat, shard: nat)
    requires KeysOf(rows, key) <= set k | k in keys
    requires RowsAfter(keys, Id, lastId, n, shard) == []
    ensures RowsAfter(rows, key, lastId, n, shard) == []
  {
    var r := RowsAfter(rows, key, lastId, n, shard);
    RowsAfterMembers(rows, key, lastId, n, shard);
    if r != [] {
      var x := r[0];
      assert x in r;
      assert key(x) in KeysOf(rows, key);
      RowsAfterMembers(keys, Id, lastId, n, shard);
    }
  }

  /** The key sub-query selects exactly the shard's keys in (lastId, m], m being its last key. */
  lemma SelectedKeysWindow(keys: seq<nat>, lastId: nat, n: nat, shard: nat, limit: nat)
    requires SortedBy(keys, Id) && limit > 0
    requires RowsAfter(keys, Id, lastId, n, shard) != []
    ensures SelectedKeys(keys, lastId, n, shard, limit) != []
    ensures forall k :: k in keys ==>
              (k in SelectedKeys(keys, lastId, n, shard, limit) <==>
               lastId < k <= Last(SelectedKeys(keys, lastId, n, shard, limit)) && InShard(k, n, shard))
  {
    var s := RowsAfter(keys, Id, lastId, n, shard);
    var sel := SelectedKeys(keys, lastId, n, shard, limit);
    var m := Last(sel);
    RowsAfterMembers(keys, Id, lastId, n, shard);
    RowsAfterSorted(keys, Id, lastId, n, shard);
    assert m == s[|sel| - 1];
    forall k | k in keys ensures k in sel <==> lastId < k <= m && InShard(k, n, shard) {
      if k in sel {
        var i :| 0 <= i < |sel| && sel[i] == k;
        assert s[i] == k;
      }
      if lastId < k <= m && InShard(k, n, shard) {
        assert k in s;
        var i :| 0 <= i < |s| && s[i] == k;
        if i >= |sel| {
          assert s[|sel| - 1] <= s[i];
        }
      }
    }
  }

  /**
   * A non-empty key sub-query yields the page of all rows with keys in (lastId, m], and that
   * page ends on a row of key m, so the cursor moves exactly to the last selected key.
   */
  lemma GroupPageWindow<T(!new)>(keys: seq<nat>, rows: seq<T>, key: T -> nat, lastId: nat, n: nat, shard: nat, limit: nat)
    requires SortedBy(keys, Id) && SortedBy(rows, key)
    requires KeysOf(rows, key) == set k | k in keys
    requires limit > 0
    requires RowsAfter(keys, Id, lastId, n, shard) != []
    ensures SelectedKeys(keys, lastId, n, shard, limit) != []
    ensures GroupPage(keys, rows, key, lastId, n, shard, limit)
            == RowsBetween(rows, key, lastId, Last(SelectedKeys(keys, lastId, n, shard, limit)), n, shard)
    ensures GroupPage(keys, rows, key, lastId, n, shard, limit) != []
    ensures key(Last(GroupPage(keys, rows, key, lastId, n, shard, limit))) == Last(SelectedKeys(keys, lastId, n, shard, limit))
  {
    var sel := SelectedKeys(keys, lastId, n, shard, limit);
    SelectedKeysWindow(keys, lastId, n, shard, limit);
    var m := Last(sel);
    forall x | x in rows ensures key(x) in sel <==> lastId < key(x) <= m && InShard(key(x), n, shard) {
      assert key(x) in KeysOf(rows, key);
    }
    RowsWithKeyInIsBetween(rows, key, sel, lastId, m, n, shard);
    var page := RowsBetween(rows, key, lastId, m, n, shard);
    RowsBetweenMembers(rows, key, lastId, m, n, shard);
    assert m in sel;
    assert m in KeysOf(rows, key);
    var x0 :| x0 in rows && key(x0) == m;
    assert x0 in page;
    RowsBetweenSorted(rows, key, lastId, m, n, shard);
    var i0 :| 0 <= i0 < |page| && page[i0] == x0;
    assert key(page[i0]) <= key(page[|page| - 1]);
    assert Last(page) in page;
  }

  /**
   * When every selected key has joined rows and every joined row's key is in the key table
   * (both tables in key order), the grouped cursor loop reads every row of its shard after
   * the starting cursor exactly once, in order, whatever the page size.
   */
  lemma {:induction false} GroupPagesAreShard<T(!new)>(keys: seq<nat>, rows: seq<T>, key: T -> nat, lastId: nat, n: nat, shard: nat, limit: nat)
    requires SortedBy(keys, Id) && SortedBy(rows, key)
    requires KeysOf(rows, key) == set k | k in keys
    requires limit > 0
    ensures Flatten(GroupPages(keys, rows, key, lastId, n, shard, limit)) == RowsAfter(rows, key, lastId, n, shard)
    decreases |RowsAfter(rows, key, lastId, n, shard)|
  {
    if RowsAfter(keys, Id, lastId, n, shard) == [] {
      NoKeysNoRows(keys, rows, key, lastId, n, shard);
      assert SelectedKeys(keys, lastId, n, shard, limit) == [];
      RowsWithNoKeys(rows, key);
    } else {
      GroupPageWindow(keys, rows, key, lastId, n, shard, limit);
      var page := GroupPage(keys, rows, key, lastId, n, shard, limit);
      var m := key(Last(page));
      RowsBetweenMembers(rows, key, lastId, m, n, shard);
      assert Last(page) in page;
      RowsAfterShrinks(rows, key, lastId, m, n, shard, Last(page));
      GroupPagesAreShard(keys, rows, key, m, n, shard, limit);
      var pages := GroupPages(keys, rows, key, lastId, n, shard, limit);
      assert pages == [page] + GroupPages(keys, rows, key, m, n, shard, limit);
      assert Flatten(pages) == page + Flatten(pages[1..]);
      assert pages[1..] == GroupPages(keys, rows, key, m, n, shard, limit);
      RowsAfterSplit(rows, key, lastId, m, n, shard);
    }
  }

  // --------------------------------------------------------------------- key groups

  /**
   * The maximal runs of consecutive rows that share a key, in order: the documents of the
   * geographic fold, one per run. Defined row by row from the end, as the fold reads them.
   */
  function Runs<T(!new)>(s: seq<T>, key: T -> nat): (rs: seq<seq<T>>)
    ensures |rs| == 0 <==> |s| == 0
    ensures forall i :: 0 <= i < |rs| ==> rs[i] != []
    decreases |s|
  {
    if |s| == 0 then []
    else if |s| == 1 then [s]
    else
      var p, x := s[..|s| - 1], s[|s| - 1];
      var rs := Runs(p, key);
      if key(p[|p| - 1]) == key(x) then rs[..|rs| - 1] + [rs[|rs| - 1] + [x]]
      else rs + [[x]]
  }

  /** One more row either extends the last run (same key as the row before) or opens a new one. */
  lemma RunsSnoc<T(!new)>(p: seq<T>, x: T, key: T -> nat)
    requires p != []
    ensures Runs(p + [x], key) ==
      if key(Last(p)) == key(x) then Init(Runs(p, key)) + [Last(Runs(p, key)) + [x]]
      else Runs(p, key) + [[x]]
  {
    assert (p + [x])[..|p|] == p;
  }

  /** The key of each run, in order: the row keys with repeats of a neighbour dropped. */
  function GroupKeys<T(!new)>(s: seq<T>, key: T -> nat): (ks: seq<nat>)
    ensures |ks| <= |s|
    ensures |ks| == 0 <==> |s| == 0
    decreases |s|
  {
    if |s| == 0 then []
    else if |s| == 1 then [key(s[0])]
    else
      var p, x := s[..|s| - 1], s[|s| - 1];
      if key(p[|p| - 1]) == key(x) then GroupKeys(p, key) else GroupKeys(p, key) + [key(x)]
  }

  lemma GroupKeysSnoc<T(!new)>(p: seq<T>, x: T, key: T -> nat)
    requires p != []
    ensures GroupKeys(p + [x], key) ==
      if key(Last(p)) == key(x) then GroupKeys(p, key) else GroupKeys(p, key) + [key(x)]
  {
    assert (p + [x])[..|p|] == p;
  }

  /** Each run is headed by its group key, and the last group is the last row's key. */
  lemma {:induction false} RunsHaveGroupKeys<T(!new)>(s: seq<T>, key: T -> nat)
    ensures |Runs(s, key)| == |GroupKeys(s, key)|
    ensures forall i :: 0 <= i < |Runs(s, key)| ==> key(Runs(s, key)[i][0]) == GroupKeys(s, key)[i]
    ensures s != [] ==> Last(GroupKeys(s, key)) == key(Last(s))
    decreases |s|
  {
    if |s| > 1 {
      var p, x := Init(s), Last(s);
      assert s == p + [x];
      RunsHaveGroupKeys(p, key);
      RunsSnoc(p, x, key);
      GroupKeysSnoc(p, x, key);
      var rs, ks := Runs(p, key), GroupKeys(p, key);
      if key(Last(p)) == key(x) {
        HeadsExtendLast(rs, ks, x, key);
      } else {
        HeadsAppendRun(rs, ks, x, key);
      }
    }
  }

  /** Growing the last run keeps every run's head. */
  lemma HeadsExtendLast<T(!new)>(rs: seq<seq<T>>, ks: seq<nat>, x: T, key: T -> nat)
    requires rs != [] && |rs| == |ks| && Last(rs) != []
    requires forall i :: 0 <= i < |rs| ==> |rs[i]| > 0 && key(rs[i][0]) == ks[i]
    ensures var rs' := Init(rs) + [Last(rs) + [x]];
      |rs'| == |ks| && forall i :: 0 <= i < |rs'| ==> key(rs'[i][0]) == ks[i]
  {
    var rs' := Init(rs) + [Last(rs) + [x]];
    forall i | 0 <= i < |rs'| ensures key(rs'[i][0]) == ks[i] {
      if i < |rs| - 1 {
        assert rs'[i] == rs[i];
      } else {
        assert rs'[i][0] == rs[i][0];
      }
    }
  }

  /** A new run headed by x gets x's key. */
  lemma HeadsAppendRun<T(!new)>(rs: seq<seq<T>>, ks: seq<nat>, x: T, key: T -> nat)
    requires |rs| == |ks|
    requires forall i :: 0 <= i < |rs| ==> |rs[i]| > 0 && key(rs[i][0]) == ks[i]
    ensures var rs' := rs + [[x]];
      forall i :: 0 <= i < |rs'| ==> key(rs'[i][0]) == (ks + [key(x)])[i]
  {
    var rs' := rs + [[x]];
    forall i | 0 <= i < |rs'| ensures key(rs'[i][0]) == (ks + [key(x)])[i] {
      if i < |rs| {
        assert rs'[i] == rs[i];
      }
    }
  }

  /** Every row of a run carries the run's key. */
  lemma {:induction false} RunsUniform<T(!new)>(s: seq<T>, key: T -> nat)
    ensures forall i, j :: 0 <= i < |Runs(s, key)| && 0 <= j < |Runs(s, key)[i]| ==>
              key(Runs(s, key)[i][j]) == key(Runs(s, key)[i][0])
    ensures s != [] ==> Last(Last(Runs(s, key))) == Last(s)
    decreases |s|
  {
    if |s| > 1 {
      var p, x := Init(s), Last(s);
      assert s == p + [x];
      RunsUniform(p, key);
      RunsSnoc(p, x, key);
      var rs := Runs(p, key);
      if key(Last(p)) == key(x) {
        var rs' := Init(rs) + [Last(rs) + [x]];
        forall i, j | 0 <= i < |rs'| && 0 <= j < |rs'[i]| ensures key(rs'[i][j]) == key(rs'[i][0]) {
          if i < |rs| - 1 {
            assert rs'[i] == rs[i];
          } else if j < |Last(rs)| {
            assert rs'[i][j] == rs[i][j] && rs'[i][0] == rs[i][0];
          } else {
            assert rs'[i][j] == x && rs'[i][0] == rs[i][0];
            assert key(Last(rs)[|Last(rs)| - 1]) == key(rs[i][0]);
          }
        }
      } else {
        var rs' := rs + [[x]];
        forall i, j | 0 <= i < |rs'| && 0 <= j < |rs'[i]| ensures key(rs'[i][j]) == key(rs'[i][0]) {
          if i < |rs| {
            assert rs'[i] == rs[i];
          }
        }
      }
    }
  }

  /** The runs cut the rows into pieces: put back together they are the rows. */
  lemma {:induction false} RunsFlatten<T(!new)>(s: seq<T>, key: T -> nat)
    ensures Flatten(Runs(s, key)) == s
    decreases |s|
  {
    if |s| == 1 {
      assert Flatten([s]) == s + Flatten([s][1..]);
    } else if |s| > 1 {
      var p, x := Init(s), Last(s);
      assert s == p + [x];
      RunsFlatten(p, key);
      RunsSnoc(p, x, key);
      var rs := Runs(p, key);
      if key(Last(p)) == key(x) {
        assert rs == Init(rs) + [Last(rs)];
        FlattenSnoc(Init(rs), Last(rs));
        FlattenSnoc(Init(rs), Last(rs) + [x]);
      } else {
        FlattenSnoc(rs, [x]);
      }
    }
  }

  /** Two stretches of rows whose meeting rows differ in key are grouped independently. */
  lemma {:induction false} RunsAppend<T(!new)>(a: seq<T>, b: seq<T>, key: T -> nat)
    requires a != [] && b != []
    requires key(Last(a)) != key(b[0])
    ensures Runs(a + b, key) == Runs(a, key) + Runs(b, key)
    decreases |b|
  {
    if |b| == 1 {
      assert a + b == a + [b[0]];
      RunsSnoc(a, b[0], key);
    } else {
      var q, x := Init(b), Last(b);
      assert b == q + [x];
      assert a + b == (a + q) + [x];
      RunsAppend(a, q, key);
      RunsSnoc(a + q, x, key);
      RunsSnoc(q, x, key);
      assert Last(a + q) == Last(q);
      var ra, rq := Runs(a, key), Runs(q, key);
      if key(Last(q)) == key(x) {
        assert Init(ra + rq) == ra + Init(rq);
        assert Last(ra + rq) == Last(rq);
      }
    }
  }

  /** Over rows in key order the group keys strictly increase: no key heads two runs. */
  lemma {:induction false} GroupKeysIncrease<T(!new)>(s: seq<T>, key: T -> nat)
    requires SortedBy(s, key)
    ensures StrictlySortedBy(GroupKeys(s, key), Id)
    ensures s != [] ==> Last(GroupKeys(s, key)) == key(Last(s))
    decreases |s|
  {
    if |s| > 1 {
      var p, x := Init(s), Last(s);
      assert s == p + [x];
      assert SortedBy(p, key);
      assert key(Last(p)) <= key(x);
      GroupKeysIncrease(p, key);
      GroupKeysSnoc(p, x, key);
    }
  }

  /** The group keys are exactly the keys of the rows. */
  lemma {:induction false} GroupKeysCover<T(!new)>(s: seq<T>, key: T -> nat)
    ensures (set k | k in GroupKeys(s, key)) == KeysOf(s, key)
    decreases |s|
  {
    if |s| == 1 {
      assert s[0] in s;
    } else if |s| > 1 {
      var p, x := Init(s), Last(s);
      assert s == p + [x];
      GroupKeysCover(p, key);
      GroupKeysSnoc(p, x, key);
      GroupKeysLast(p, key);
      assert KeysOf(s, key) == KeysOf(p, key) + {key(x)};
      if key(Last(p)) == key(x) {
        assert Last(p) in p;
      }
    }
  }

  lemma {:induction false} GroupKeysLast<T(!new)>(s: seq<T>, key: T -> nat)
    ensures s != [] ==> Last(GroupKeys(s, key)) == key(Last(s))
    decreases |s|
  {
    if |s| > 1 {
      var p, x := Init(s), Last(s);
      assert s == p + [x];
      GroupKeysLast(p, key);
      GroupKeysSnoc(p, x, key);
    }
  }
}
