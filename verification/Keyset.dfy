/**
 What the database does with a keyset query: keep the rows a condition accepts, order them
 newest first by (time, id), and return the first of them. Shared by releases and events.
 */
module Keyset {

  datatype RowKey = RowKey(at: int, id: string)

  /** The order of identifiers. */
  predicate Less(a: string, b: string) {
    b != "" && (a == "" || a[0] < b[0] || (a[0] == b[0] && Less(a[1..], b[1..])))
  }

  lemma {:induction false} LessIsStrict(a: string, b: string, c: string)
    ensures !Less(a, a)
    ensures Less(a, b) && Less(b, c) ==> Less(a, c)
    decreases |a|
  {
    if a != "" {
      LessIsStrict(a[1..], if b == "" then "" else b[1..], if c == "" then "" else c[1..]);
    }
  }

  lemma {:induction false} LessIsTotal(a: string, b: string)
    ensures a == b || Less(a, b) || Less(b, a)
    decreases |a|
  {
    if a != "" && b != "" && a[0] == b[0] {
      LessIsTotal(a[1..], b[1..]);
      assert a == [a[0]] + a[1..] && b == [b[0]] + b[1..];
    }
  }

  /** The order of dictionaries: a proper prefix comes first, and otherwise the first difference decides. */
  lemma {:induction false} LessIsLexicographic(a: string, b: string)
    ensures Less(a, b) <==>
            (a <= b && a != b) || exists i :: 0 <= i < |a| && i < |b| && a[..i] == b[..i] && a[i] < b[i]
    decreases |a|
  {
    if a != "" && b != "" && a[0] == b[0] {
      var s, t := a[1..], b[1..];
      LessIsLexicographic(s, t);
      assert a == [a[0]] + s && b == [b[0]] + t;
      assert (a <= b && a != b) <==> (s <= t && s != t);
      if i :| 0 <= i < |s| && i < |t| && s[..i] == t[..i] && s[i] < t[i] {
        assert a[..i + 1] == [a[0]] + s[..i] && b[..i + 1] == [b[0]] + t[..i];
        assert a[..i + 1] == b[..i + 1] && a[i + 1] < b[i + 1];
      }
      if i :| 0 <= i < |a| && i < |b| && a[..i] == b[..i] && a[i] < b[i] {
        assert i > 0 && s[..i - 1] == a[..i][1..] && t[..i - 1] == b[..i][1..];
        assert s[..i - 1] == t[..i - 1] && s[i - 1] < t[i - 1];
      }
    } else if a != "" && b != "" {
      FirstDiffers(a, b);
    }
  }

  lemma FirstDiffers(a: string, b: string)
    requires a != "" && b != "" && a[0] != b[0]
    ensures a[0] < b[0] <==> exists i :: 0 <= i < |a| && i < |b| && a[..i] == b[..i] && a[i] < b[i]
    ensures !(a <= b)
  {
    if a[0] < b[0] {
      assert a[..0] == b[..0] && a[0] < b[0];
    }
    if i :| 0 <= i < |a| && i < |b| && a[..i] == b[..i] && a[i] < b[i] {
      assert i > 0 ==> a[..i][0] == b[..i][0];
    }
  }

  /** Newest first: later times before earlier ones, and at one time greater ids before smaller ones. */
  lemma SortedIsNewestFirst<T>(rows: seq<T>, key: T -> RowKey)
    ensures Sorted(rows, key) <==>
            forall i, j :: 0 <= i < j < |rows| ==>
              || key(rows[i]).at > key(rows[j]).at
              || (key(rows[i]).at == key(rows[j]).at && Less(key(rows[j]).id, key(rows[i]).id))
  {
  }

  /** `a` is listed before `b`: ORDER BY at DESC, id DESC. */
  predicate Before(a: RowKey, b: RowKey) {
    b.at < a.at || (b.at == a.at && Less(b.id, a.id))
  }

  lemma BeforeIsStrict(a: RowKey, b: RowKey, c: RowKey)
    ensures !Before(a, a)
    ensures Before(a, b) && Before(b, c) ==> Before(a, c)
  {
    LessIsStrict(c.id, b.id, a.id);
    LessIsStrict(a.id, b.id, c.id);
  }

  lemma BeforeIsTotal(a: RowKey, b: RowKey)
    ensures a == b || Before(a, b) || Before(b, a)
  {
    LessIsTotal(a.id, b.id);
  }

  function Filter<T>(rows: seq<T>, p: T -> bool): (kept: seq<T>) {
    if rows == [] then [] else (if p(rows[0]) then [rows[0]] else []) + Filter(rows[1..], p)
  }

  function Insert<T>(row: T, sorted: seq<T>, key: T -> RowKey): seq<T> {
    if sorted == [] || Before(key(row), key(sorted[0])) then [row] + sorted
    else [sorted[0]] + Insert(row, sorted[1..], key)
  }

  function Sort<T>(rows: seq<T>, key: T -> RowKey): seq<T> {
    if rows == [] then [] else Insert(rows[0], Sort(rows[1..], key), key)
  }

  /** What a query returns: the rows that meet its condition, newest first. */
  function Query<T>(rows: seq<T>, where: T -> bool, key: T -> RowKey): seq<T> { Sort(Filter(rows, where), key) }

  /** A requested page size: the fallback when it is not positive, and never over the maximum. */
  function Clamp(limit: int, fallback: int, max: int): int {
    if limit <= 0 then fallback else if limit > max then max else limit
  }

  /** Strictly newest first, so no two rows have the same key. */
  ghost predicate Sorted<T>(rows: seq<T>, key: T -> RowKey) {
    forall i, j :: 0 <= i < j < |rows| ==> Before(key(rows[i]), key(rows[j]))
  }

  ghost predicate DistinctKeys<T>(rows: seq<T>, key: T -> RowKey) {
    forall i, j :: 0 <= i < j < |rows| ==> key(rows[i]) != key(rows[j])
  }

  // ---------------------------------------------------------------- filtering

  lemma {:induction false} FilterMember<T>(rows: seq<T>, p: T -> bool, x: T)
    ensures x in Filter(rows, p) <==> x in rows && p(x)
  {
    if rows != [] {
      FilterMember(rows[1..], p, x);
      assert x in rows <==> x == rows[0] || x in rows[1..];
    }
  }

  lemma {:induction false} FilterConcat<T>(a: seq<T>, b: seq<T>, p: T -> bool)
    ensures Filter(a + b, p) == Filter(a, p) + Filter(b, p)
  {
    if a == [] {
      assert a + b == b;
    } else {
      var head := if p(a[0]) then [a[0]] else [];
      FilterConcat(a[1..], b, p);
      assert (a + b)[0] == a[0] && (a + b)[1..] == a[1..] + b;
      assert Filter(a + b, p) == head + Filter(a[1..] + b, p);
      assert head + (Filter(a[1..], p) + Filter(b, p)) == (head + Filter(a[1..], p)) + Filter(b, p);
    }
  }

  lemma FilterLast<T>(rows: seq<T>, i: nat, p: T -> bool)
    requires i < |rows|
    ensures Filter(rows[..i + 1], p) == Filter(rows[..i], p) + if p(rows[i]) then [rows[i]] else []
  {
    assert rows[..i + 1] == rows[..i] + [rows[i]];
    FilterConcat(rows[..i], [rows[i]], p);
    assert [rows[i]][1..] == [];
  }

  /** `kept` are the rows at the positions `at`: these increase, and they are exactly where `p` holds. */
  ghost predicate PickedAt<T>(rows: seq<T>, p: T -> bool, kept: seq<T>, at: seq<nat>) {
    && |at| == |kept|
    && (forall i, j :: 0 <= i < j < |at| ==> at[i] < at[j])
    && (forall i :: 0 <= i < |at| ==> at[i] < |rows| && kept[i] == rows[at[i]])
    && (forall n :: 0 <= n < |rows| ==> (n in at <==> p(rows[n])))
  }

  /** `kept` are exactly the rows where `p` holds, as often as they occur and in their order. */
  ghost predicate KeptInOrder<T>(rows: seq<T>, p: T -> bool, kept: seq<T>) {
    exists at :: PickedAt(rows, p, kept, at)
  }

  /** Filtering keeps the order. */
  lemma FilterKeepsOrder<T>(rows: seq<T>, p: T -> bool)
    ensures KeptInOrder(rows, p, Filter(rows, p))
  {
    var at := FilterPositions(rows, p, |rows|);
    assert rows[..|rows|] == rows;
    assert PickedAt(rows, p, Filter(rows, p), at);
  }

  lemma {:induction false} FilterPositions<T>(rows: seq<T>, p: T -> bool, n: nat) returns (at: seq<nat>)
    requires n <= |rows|
    ensures PickedAt(rows[..n], p, Filter(rows[..n], p), at)
  {
    at := [];
    if n > 0 {
      var before := FilterPositions(rows, p, n - 1);
      at := before + if p(rows[n - 1]) then [n - 1] else [];
      FilterLast(rows, n - 1, p);
      PickOneMore(rows, p, n - 1, before);
    }
  }

  lemma PickOneMore<T>(rows: seq<T>, p: T -> bool, n: nat, at: seq<nat>)
    requires n < |rows| && PickedAt(rows[..n], p, Filter(rows[..n], p), at)
    ensures var kept := Filter(rows[..n], p) + if p(rows[n]) then [rows[n]] else [];
            PickedAt(rows[..n + 1], p, kept, at + if p(rows[n]) then [n] else [])
  {
    var after := at + if p(rows[n]) then [n] else [];
    assert forall i :: 0 <= i < n ==> rows[..n][i] == rows[..n + 1][i];
    forall k | 0 <= k < n + 1 ensures k in after <==> p(rows[..n + 1][k]) {
      assert k < n ==> (k in after <==> k in at);
    }
  }

  /** When nothing up to a position is kept, only the rest counts. */
  lemma FilterRest<T>(rows: seq<T>, i: nat, p: T -> bool)
    requires i <= |rows| && Filter(rows[..i], p) == []
    ensures Filter(rows, p) == Filter(rows[i..], p)
  {
    FilterConcat(rows[..i], rows[i..], p);
    assert rows == rows[..i] + rows[i..];
    assert [] + Filter(rows[i..], p) == Filter(rows[i..], p);
  }

  lemma {:induction false} FilterAll<T>(rows: seq<T>, p: T -> bool)
    requires forall i :: 0 <= i < |rows| ==> p(rows[i])
    ensures Filter(rows, p) == rows
  {
    if rows != [] {
      FilterAll(rows[1..], p);
    }
  }

  lemma {:induction false} FilterNone<T>(rows: seq<T>, p: T -> bool)
    requires forall i :: 0 <= i < |rows| ==> !p(rows[i])
    ensures Filter(rows, p) == []
  {
    if rows != [] {
      FilterNone(rows[1..], p);
    }
  }

  /** A filter and its complement keep every row between them. */
  lemma {:induction false} FilterSplits<T>(rows: seq<T>, p: T -> bool, q: T -> bool)
    requires forall i :: 0 <= i < |rows| ==> q(rows[i]) == !p(rows[i])
    ensures multiset(Filter(rows, p)) + multiset(Filter(rows, q)) == multiset(rows)
  {
    if rows != [] {
      FilterSplits(rows[1..], p, q);
      assert rows == [rows[0]] + rows[1..];
    }
  }

  /** Filters that agree on the rows keep the same rows. */
  lemma {:induction false} FilterCongruent<T>(rows: seq<T>, p: T -> bool, q: T -> bool)
    requires forall i :: 0 <= i < |rows| ==> p(rows[i]) == q(rows[i])
    ensures Filter(rows, p) == Filter(rows, q)
  {
    if rows != [] {
      FilterCongruent(rows[1..], p, q);
    }
  }

  lemma {:induction false} FilterTwice<T>(rows: seq<T>, p: T -> bool, q: T -> bool, both: T -> bool)
    requires forall i :: 0 <= i < |rows| ==> both(rows[i]) == (p(rows[i]) && q(rows[i]))
    ensures Filter(rows, both) == Filter(Filter(rows, p), q)
  {
    if rows != [] {
      FilterTwice(rows[1..], p, q, both);
      var kept := Filter(rows[1..], p);
      if p(rows[0]) {
        var all := [rows[0]] + kept;
        assert all[0] == rows[0] && all[1..] == kept;
      } else {
        assert [] + kept == kept;
      }
    }
  }

  // ---------------------------------------------------------------- sorting

  lemma {:induction false} InsertKeepsRows<T>(row: T, sorted: seq<T>, key: T -> RowKey)
    ensures multiset(Insert(row, sorted, key)) == multiset(sorted) + multiset{row}
  {
    if !(sorted == [] || Before(key(row), key(sorted[0]))) {
      InsertKeepsRows(row, sorted[1..], key);
      assert sorted == [sorted[0]] + sorted[1..];
    }
  }

  lemma {:induction false} SortKeepsRows<T>(rows: seq<T>, key: T -> RowKey)
    ensures multiset(Sort(rows, key)) == multiset(rows)
  {
    if rows != [] {
      SortKeepsRows(rows[1..], key);
      InsertKeepsRows(rows[0], Sort(rows[1..], key), key);
      assert rows == [rows[0]] + rows[1..];
    }
  }

  lemma {:induction false} InsertSorts<T>(row: T, sorted: seq<T>, key: T -> RowKey)
    requires Sorted(sorted, key)
    requires forall i :: 0 <= i < |sorted| ==> key(sorted[i]) != key(row)
    ensures Sorted(Insert(row, sorted, key), key)
  {
    if sorted == [] {
    } else if Before(key(row), key(sorted[0])) {
      forall j | 0 <= j < |sorted| ensures Before(key(row), key(sorted[j])) {
        BeforeIsStrict(key(row), key(sorted[0]), key(sorted[j]));
      }
    } else {
      var rest := Insert(row, sorted[1..], key);
      InsertSorts(row, sorted[1..], key);
      InsertKeepsRows(row, sorted[1..], key);
      forall j | 0 <= j < |rest| ensures Before(key(sorted[0]), key(rest[j])) {
        assert rest[j] in multiset(rest);
        if rest[j] != row {
          assert rest[j] in sorted[1..];
        } else {
          BeforeIsTotal(key(row), key(sorted[0]));
        }
      }
    }
  }

  lemma {:induction false} SortSorts<T>(rows: seq<T>, key: T -> RowKey)
    requires DistinctKeys(rows, key)
    ensures Sorted(Sort(rows, key), key)
  {
    if rows != [] {
      var rest := Sort(rows[1..], key);
      SortSorts(rows[1..], key);
      SortKeepsRows(rows[1..], key);
      forall i | 0 <= i < |rest| ensures key(rest[i]) != key(rows[0]) {
        assert rest[i] in multiset(rest);
        assert rest[i] in rows[1..];
      }
      InsertSorts(rows[0], rest, key);
    }
  }

  lemma {:induction false} SortedIsUnique<T>(a: seq<T>, b: seq<T>, key: T -> RowKey)
    requires Sorted(a, key) && Sorted(b, key) && multiset(a) == multiset(b)
    ensures a == b
  {
    assert |a| == |multiset(a)| == |multiset(b)| == |b|;
    if a != [] {
      assert a[0] in multiset(b) && b[0] in multiset(a);
      FirstsAgree(a, b, key);
      RestsAgree(a, b);
      SortedIsUnique(a[1..], b[1..], key);
      assert a == [a[0]] + a[1..] && b == [b[0]] + b[1..];
    }
  }

  lemma RestsAgree<T>(a: seq<T>, b: seq<T>)
    requires a != [] && b != [] && a[0] == b[0] && multiset(a) == multiset(b)
    ensures multiset(a[1..]) == multiset(b[1..])
  {
    assert a == [a[0]] + a[1..] && b == [b[0]] + b[1..];
    assert multiset(a[1..]) == multiset(a) - multiset{a[0]};
    assert multiset(b[1..]) == multiset(b) - multiset{b[0]};
  }

  lemma FirstsAgree<T>(a: seq<T>, b: seq<T>, key: T -> RowKey)
    requires Sorted(a, key) && Sorted(b, key) && a != [] && b != []
    requires a[0] in b && b[0] in a
    ensures a[0] == b[0]
  {
    var i :| 0 <= i < |b| && b[i] == a[0];
    var j :| 0 <= j < |a| && a[j] == b[0];
    if i != 0 && j != 0 {
      BeforeIsStrict(key(a[0]), key(b[0]), key(a[0]));
    }
  }

  // ---------------------------------------------------------------- cursors

  lemma {:induction false} FilterKeepsSorted<T>(rows: seq<T>, p: T -> bool, key: T -> RowKey)
    requires Sorted(rows, key)
    ensures Sorted(Filter(rows, p), key)
  {
    if rows != [] {
      var rest := Filter(rows[1..], p);
      FilterKeepsSorted(rows[1..], p, key);
      forall j | 0 <= j < |rest| ensures Before(key(rows[0]), key(rest[j])) {
        FilterMember(rows[1..], p, rest[j]);
      }
    }
  }

  /** Selecting before ordering is ordering before selecting. */
  lemma SortFilter<T>(rows: seq<T>, p: T -> bool, key: T -> RowKey)
    requires DistinctKeys(rows, key)
    ensures Sort(Filter(rows, p), key) == Filter(Sort(rows, key), p)
  {
    var sorted := Sort(rows, key);
    SortSorts(rows, key);
    SortKeepsRows(rows, key);
    FilterKeepsSorted(sorted, p, key);
    FilterKeepsDistinct(rows, p, key);
    SortSorts(Filter(rows, p), key);
    SortKeepsRows(Filter(rows, p), key);
    FilterOfSameRows(rows, sorted, p);
    SortedIsUnique(Sort(Filter(rows, p), key), Filter(sorted, p), key);
  }

  lemma FilterOfSameRows<T>(a: seq<T>, b: seq<T>, p: T -> bool)
    requires multiset(a) == multiset(b)
    ensures multiset(Filter(a, p)) == multiset(Filter(b, p))
  {
    FilterKeepsAsMany(a, b, p);
    FilterKeepsAsMany(b, a, p);
  }

  lemma FilterKeepsAsMany<T>(a: seq<T>, b: seq<T>, p: T -> bool)
    requires multiset(a) == multiset(b)
    ensures multiset(Filter(a, p)) <= multiset(Filter(b, p))
  {
    forall x | x in Filter(a, p) ensures multiset(Filter(a, p))[x] == multiset(Filter(b, p))[x] {
      FilterCounts(a, p, x);
      FilterCounts(b, p, x);
    }
  }

  /** A row is kept as often as it is there, or not at all. */
  lemma {:induction false} FilterCounts<T>(rows: seq<T>, p: T -> bool, x: T)
    ensures multiset(Filter(rows, p))[x] == if p(x) then multiset(rows)[x] else 0
  {
    if rows != [] {
      var kept := if p(rows[0]) then [rows[0]] else [];
      FilterCounts(rows[1..], p, x);
      assert rows == [rows[0]] + rows[1..];
      assert multiset(Filter(rows, p)) == multiset(kept) + multiset(Filter(rows[1..], p));
    }
  }

  lemma {:induction false} FilterKeepsDistinct<T>(rows: seq<T>, p: T -> bool, key: T -> RowKey)
    requires DistinctKeys(rows, key)
    ensures DistinctKeys(Filter(rows, p), key)
  {
    if rows != [] {
      var rest := Filter(rows[1..], p);
      FilterKeepsDistinct(rows[1..], p, key);
      forall j | 0 <= j < |rest| ensures key(rows[0]) != key(rest[j]) {
        FilterMember(rows[1..], p, rest[j]);
      }
    }
  }

  /** `after` selects the rows strictly after the i-th. */
  ghost predicate SelectsAfter<T>(sorted: seq<T>, key: T -> RowKey, i: nat, after: T -> bool)
    requires i < |sorted|
  {
    forall j :: 0 <= j < |sorted| ==> after(sorted[j]) == Before(key(sorted[i]), key(sorted[j]))
  }

  lemma NoneUpTo<T>(sorted: seq<T>, key: T -> RowKey, i: nat, after: T -> bool)
    requires Sorted(sorted, key) && i < |sorted| && SelectsAfter(sorted, key, i, after)
    ensures Filter(sorted[..i + 1], after) == []
  {
    var a := sorted[..i + 1];
    forall j | 0 <= j < |a| ensures !after(a[j]) {
      assert a[j] == sorted[j];
      BeforeIsStrict(key(sorted[i]), key(sorted[j]), key(sorted[i]));
    }
    FilterNone(a, after);
  }

  lemma AllBeyond<T>(sorted: seq<T>, key: T -> RowKey, i: nat, after: T -> bool)
    requires Sorted(sorted, key) && i < |sorted| && SelectsAfter(sorted, key, i, after)
    ensures Filter(sorted[i + 1..], after) == sorted[i + 1..]
  {
    var b := sorted[i + 1..];
    forall j | 0 <= j < |b| ensures after(b[j]) {
      assert b[j] == sorted[i + 1 + j];
    }
    FilterAll(b, after);
  }

  /** In a listing, the rows strictly after the i-th are the rest of the listing. */
  lemma RowsAfter<T>(sorted: seq<T>, key: T -> RowKey, i: nat, after: T -> bool)
    requires Sorted(sorted, key) && i < |sorted| && SelectsAfter(sorted, key, i, after)
    ensures Filter(sorted, after) == sorted[i + 1..]
  {
    NoneUpTo(sorted, key, i, after);
    AllBeyond(sorted, key, i, after);
    FilterRest(sorted, i + 1, after);
  }

  /** A listing holds exactly the accepted rows. */
  lemma ListingMember<T>(rows: seq<T>, p: T -> bool, key: T -> RowKey, r: T)
    ensures r in Query(rows, p, key) <==> r in rows && p(r)
  {
    var chosen := Filter(rows, p);
    SortKeepsRows(chosen, key);
    FilterMember(rows, p, r);
    assert r in Sort(chosen, key) <==> r in multiset(Sort(chosen, key));
    assert r in chosen <==> r in multiset(chosen);
  }

  /** A listing is strictly ordered. */
  lemma ListingSorted<T>(rows: seq<T>, p: T -> bool, key: T -> RowKey)
    requires DistinctKeys(rows, key)
    ensures Sorted(Query(rows, p, key), key)
  {
    FilterKeepsDistinct(rows, p, key);
    SortSorts(Filter(rows, p), key);
  }

  /** Adding the keyset condition for the i-th row of a listing lists the rows after it. */
  lemma ListingAfter<T>(rows: seq<T>, key: T -> RowKey, p: T -> bool, i: nat, both: T -> bool)
    requires DistinctKeys(rows, key)
    requires i < |Query(rows, p, key)|
    requires forall r :: r in rows ==> both(r) == (p(r) && Before(key(Query(rows, p, key)[i]), key(r)))
    ensures Query(rows, both, key) == Query(rows, p, key)[i + 1..]
  {
    var chosen := Filter(rows, p);
    var listing := Sort(chosen, key);
    var after := r => Before(key(listing[i]), key(r));
    FilterTwice(rows, p, after, both);
    FilterKeepsDistinct(rows, p, key);
    SortFilter(chosen, after, key);
    SortSorts(chosen, key);
    RowsAfter(listing, key, i, after);
  }

  /** Positions in a suffix are positions in the whole. */
  lemma SuffixParts<T>(all: seq<T>, i: nat, rest: seq<T>, n: nat)
    requires i <= |all| && rest == all[i..] && n < |rest|
    ensures rest[n] == all[i + n] && rest[n + 1..] == all[i + n + 1..]
  {
  }

  /** The first `n` rows, or all of them. */
  function Take<T>(rows: seq<T>, n: nat): seq<T> {
    if |rows| <= n then rows else rows[..n]
  }
}
