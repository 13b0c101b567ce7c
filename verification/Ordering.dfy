/**
 The orders that the library's ORDER BY clauses use, and what a sorted listing is.

 Every listing orders rows by an integer position and breaks ties by a unique
 column: the text public id of a sound or a binding, or the row id of a folder.
 */
module Ordering {

  datatype Tie = Id(id: int) | Text(text: string)

  datatype Key = Key(position: int, tie: Tie)

  /** Code-point order, the order of SQLite's BINARY collation. */
  predicate TextLess(a: string, b: string) {
    if |b| == 0 then false
    else if |a| == 0 then true
    else a[0] < b[0] || (a[0] == b[0] && TextLess(a[1..], b[1..]))
  }

  /** `a` comes first when it is a proper prefix, or has the smaller character where they first differ. */
  ghost predicate ComesFirst(a: string, b: string) {
    exists k :: 0 <= k <= |a| && k < |b| && a[..k] == b[..k] && (k == |a| || a[k] < b[k])
  }

  lemma {:induction false} TextLessExactly(a: string, b: string)
    ensures TextLess(a, b) <==> ComesFirst(a, b)
  {
    if |b| > 0 {
      if |a| == 0 {
        assert a[..0] == b[..0];
      } else {
        TextLessExactly(a[1..], b[1..]);
        if TextLess(a[1..], b[1..]) && a[0] == b[0] {
          var k :| 0 <= k <= |a[1..]| && k < |b[1..]| && a[1..][..k] == b[1..][..k]
            && (k == |a[1..]| || a[1..][k] < b[1..][k]);
          assert a[..k + 1] == [a[0]] + a[1..][..k] && b[..k + 1] == [b[0]] + b[1..][..k];
        } else if a[0] < b[0] {
          assert a[..0] == b[..0];
        }
        if ComesFirst(a, b) { FirstOfRest(a, b); }
      }
    }
  }

  lemma FirstOfRest(a: string, b: string)
    requires |a| > 0 && ComesFirst(a, b)
    ensures |b| > 0 && (a[0] < b[0] || (a[0] == b[0] && ComesFirst(a[1..], b[1..])))
  {
    var k :| 0 <= k <= |a| && k < |b| && a[..k] == b[..k] && (k == |a| || a[k] < b[k]);
    if k > 0 {
      assert a[0] == a[..k][0] && b[0] == b[..k][0];
      assert a[1..][..k - 1] == a[..k][1..] && b[1..][..k - 1] == b[..k][1..];
      assert k == |a| || a[1..][k - 1] < b[1..][k - 1];
    }
  }

  predicate TieLess(a: Tie, b: Tie) {
    match (a, b)
    case (Id(x), Id(y)) => x < y
    case (Text(x), Text(y)) => TextLess(x, y)
    case (Id(_), Text(_)) => true
    case (Text(_), Id(_)) => false
  }

  predicate Less(a: Key, b: Key) {
    a.position < b.position || (a.position == b.position && TieLess(a.tie, b.tie))
  }

  lemma {:induction false} TextLessTransitive(a: string, b: string, c: string)
    requires TextLess(a, b) && TextLess(b, c)
    ensures TextLess(a, c)
  {
    if |a| != 0 && a[0] == b[0] == c[0] {
      TextLessTransitive(a[1..], b[1..], c[1..]);
    }
  }

  lemma {:induction false} TextLessTotal(a: string, b: string)
    ensures TextLess(a, b) || a == b || TextLess(b, a)
    ensures !(TextLess(a, b) && TextLess(b, a))
    ensures !TextLess(a, a)
  {
    if |a| != 0 {
      TextLessTotal(a[1..], a[1..]);
    }
    if |a| != 0 && |b| != 0 && a[0] == b[0] {
      TextLessTotal(a[1..], b[1..]);
      if a[1..] == b[1..] {
        assert a == [a[0]] + a[1..];
        assert b == [b[0]] + b[1..];
      }
    }
  }

  lemma LessTransitive(a: Key, b: Key, c: Key)
    requires Less(a, b) && Less(b, c)
    ensures Less(a, c)
  {
    if a.tie.Text? && b.tie.Text? && c.tie.Text? && a.position == b.position == c.position {
      TextLessTransitive(a.tie.text, b.tie.text, c.tie.text);
    }
  }

  lemma LessTotal(a: Key, b: Key)
    ensures Less(a, b) || a == b || Less(b, a)
    ensures !(Less(a, b) && Less(b, a))
    ensures !Less(a, a)
  {
    if a.tie.Text? {
      TextLessTotal(a.tie.text, a.tie.text);
      if b.tie.Text? {
        TextLessTotal(a.tie.text, b.tie.text);
      }
    }
  }

  /** No two rows carry the same key, as the unique tie-break column ensures. */
  ghost predicate Distinct<T(!new)>(keys: map<T, Key>) {
    forall a, b :: a in keys && b in keys && a != b ==> keys[a] != keys[b]
  }

  predicate IsLeast<T(==)>(least: T, keys: map<T, Key>) {
    && least in keys
    && forall x | x in keys && x != least :: Less(keys[least], keys[x])
  }

  /** `keys` without one row. */
  function Without<T(==)>(keys: map<T, Key>, row: T): (rest: map<T, Key>)
    ensures rest.Keys == keys.Keys - {row}
    ensures forall x :: x in rest ==> rest[x] == keys[x]
  {
    map x | x in keys && x != row :: keys[x]
  }

  lemma {:induction false} LeastExists<T(!new)>(keys: map<T, Key>)
    requires keys != map[] && Distinct(keys)
    ensures exists least :: IsLeast(least, keys)
    decreases keys.Keys
  {
    var x :| x in keys;
    if keys.Keys == {x} {
      assert IsLeast(x, keys);
    } else {
      var rest := Without(keys, x);
      assert keys.Keys != {x} && x in keys.Keys;
      assert rest.Keys != {};
      LeastExists(rest);
      var m :| IsLeast(m, rest);
      LessTotal(keys[x], keys[m]);
      if Less(keys[x], keys[m]) {
        forall y | y in keys && y != x ensures Less(keys[x], keys[y]) {
          if y != m {
            assert y in rest && Less(rest[m], rest[y]);
            LessTransitive(keys[x], keys[m], keys[y]);
          }
        }
        assert IsLeast(x, keys);
      } else {
        assert IsLeast(m, keys);
      }
    }
  }

  lemma LeastUnique<T(!new)>(a: T, b: T, keys: map<T, Key>)
    requires IsLeast(a, keys) && IsLeast(b, keys)
    ensures a == b
  {
    LessTotal(keys[a], keys[b]);
  }

  /** The rows of `keys` in ascending key order: ORDER BY position, tie. */
  function Sort<T(!new, ==)>(keys: map<T, Key>): (sorted: seq<T>)
    requires Distinct(keys)
    ensures |sorted| == |keys|
    decreases keys.Keys
  {
    if keys == map[] then []
    else
      LeastExists(keys);
      assert forall a, b :: IsLeast(a, keys) && IsLeast(b, keys) ==> a == b by {
        forall a, b | IsLeast(a, keys) && IsLeast(b, keys) ensures a == b {
          LeastUnique(a, b, keys);
        }
      }
      var least :| IsLeast(least, keys);
      [least] + Sort(Without(keys, least))
  }

  /** A listing of rows of `keys` in strictly ascending key order. */
  ghost predicate Ascending<T(!new)>(rows: seq<T>, keys: map<T, Key>) {
    && (forall i :: 0 <= i < |rows| ==> rows[i] in keys)
    && (forall i, j :: 0 <= i < j < |rows| ==> Less(keys[rows[i]], keys[rows[j]]))
  }

  ghost function Elements<T>(rows: seq<T>): set<T> {
    set x | x in rows
  }

  /** One selection step of the sort. */
  lemma SortStep<T(!new)>(keys: map<T, Key>)
    requires Distinct(keys) && keys != map[]
    ensures IsLeast(Sort(keys)[0], keys)
    ensures Sort(keys) == [Sort(keys)[0]] + Sort(Without(keys, Sort(keys)[0]))
  {
    LeastExists(keys);
  }

  lemma {:induction false} SortElements<T(!new)>(keys: map<T, Key>)
    requires Distinct(keys)
    ensures Elements(Sort(keys)) == keys.Keys
    decreases keys.Keys
  {
    if keys != map[] {
      SortStep(keys);
      var least := Sort(keys)[0];
      var rest := Sort(Without(keys, least));
      SortElements(Without(keys, least));
      assert Elements([least] + rest) == {least} + Elements(rest);
    }
  }

  lemma {:induction false} SortAscends<T(!new)>(keys: map<T, Key>)
    requires Distinct(keys)
    ensures Ascending(Sort(keys), keys)
    decreases keys.Keys
  {
    if keys != map[] {
      SortStep(keys);
      var least := Sort(keys)[0];
      var rest := Sort(Without(keys, least));
      SortElements(Without(keys, least));
      SortAscends(Without(keys, least));
      AscendingCons(least, rest, keys);
    }
  }

  lemma AscendingCons<T(!new)>(least: T, rest: seq<T>, keys: map<T, Key>)
    requires IsLeast(least, keys) && Ascending(rest, Without(keys, least))
    ensures Ascending([least] + rest, keys)
  {
    var rows := [least] + rest;
    forall i | 0 <= i < |rows| ensures rows[i] in keys {
      if i != 0 { assert rest[i - 1] in Without(keys, least); }
    }
    forall i, j | 0 <= i < j < |rows| ensures Less(keys[rows[i]], keys[rows[j]]) {
      assert rows[j] == rest[j - 1] && rest[j - 1] in Without(keys, least);
      if i != 0 { assert rows[i] == rest[i - 1]; }
    }
  }

  lemma AscendingTail<T(!new)>(rows: seq<T>, keys: map<T, Key>)
    requires rows != [] && Ascending(rows, keys)
    ensures Ascending(rows[1..], Without(keys, rows[0]))
    ensures Elements(rows[1..]) == Elements(rows) - {rows[0]}
  {
    var tail := rows[1..];
    forall i | 0 <= i < |tail| ensures tail[i] in Without(keys, rows[0]) {
      assert Less(keys[rows[0]], keys[rows[i + 1]]);
      LessTotal(keys[rows[0]], keys[rows[i + 1]]);
    }
    forall i, j | 0 <= i < j < |tail| ensures Less(keys[tail[i]], keys[tail[j]]) {
      assert Less(keys[rows[i + 1]], keys[rows[j + 1]]);
    }
    assert Elements(rows) == {rows[0]} + Elements(tail);
    assert rows[0] !in Without(keys, rows[0]);
  }

  /** There is only one ascending listing of a set of rows. */
  lemma {:induction false} SortUnique<T(!new)>(rows: seq<T>, keys: map<T, Key>)
    requires Distinct(keys) && Ascending(rows, keys) && Elements(rows) == keys.Keys
    ensures rows == Sort(keys)
    decreases keys.Keys
  {
    assert |rows| > 0 ==> rows[0] in Elements(rows);
    if keys != map[] {
      SortStep(keys);
      FirstIsLeast(rows, keys);
      LeastUnique(Sort(keys)[0], rows[0], keys);
      AscendingTail(rows, keys);
      SortUnique(rows[1..], Without(keys, rows[0]));
      assert rows == [rows[0]] + rows[1..];
    }
  }

  lemma AscendingDistinct<T(!new)>(rows: seq<T>, keys: map<T, Key>)
    requires Ascending(rows, keys)
    ensures forall i, j :: 0 <= i < j < |rows| ==> rows[i] != rows[j]
  {
    forall i, j | 0 <= i < j < |rows| ensures rows[i] != rows[j] {
      LessTotal(keys[rows[i]], keys[rows[j]]);
    }
  }

  lemma FirstIsLeast<T(!new)>(rows: seq<T>, keys: map<T, Key>)
    requires Ascending(rows, keys) && Elements(rows) == keys.Keys && keys != map[]
    ensures rows != [] && IsLeast(rows[0], keys)
  {
    var x :| x in keys;
    assert x in Elements(rows);
    forall y | y in keys && y != rows[0] ensures Less(keys[rows[0]], keys[y]) {
      assert y in Elements(rows);
    }
  }

  /** Two key columns that order the same rows alike produce the same listing. */
  lemma SortOrderIsomorphic<T(!new)>(left: map<T, Key>, right: map<T, Key>)
    requires Distinct(left) && Distinct(right) && left.Keys == right.Keys
    requires forall a, b :: a in left && b in left && Less(left[a], left[b]) ==> Less(right[a], right[b])
    ensures Sort(left) == Sort(right)
  {
    SortAscends(left);
    SortElements(left);
    SortUnique(Sort(left), right);
  }

  /** The rows that come strictly before `row`: what the rank queries count. */
  function Before<T(==)>(keys: map<T, Key>, row: T): set<T>
    requires row in keys
  {
    set x | x in keys && Less(keys[x], keys[row])
  }

  lemma {:induction false} DistinctCardinality<T>(rows: seq<T>)
    requires forall i, j :: 0 <= i < j < |rows| ==> rows[i] != rows[j]
    ensures |Elements(rows)| == |rows|
  {
    if rows != [] {
      DistinctCardinality(rows[1..]);
      assert Elements(rows) == {rows[0]} + Elements(rows[1..]);
      assert rows[0] !in Elements(rows[1..]);
    }
  }

  /** In an ascending listing of all rows, those before row `i` are the first `i`. */
  lemma BeforeIsPrefix<T(!new)>(keys: map<T, Key>, rows: seq<T>, i: nat)
    requires Ascending(rows, keys) && Elements(rows) == keys.Keys && i < |rows|
    ensures rows[i] in keys && Before(keys, rows[i]) == Elements(rows[..i])
  {
    hide Less;
    forall x ensures x in Before(keys, rows[i]) <==> x in rows[..i] {
      if x in Before(keys, rows[i]) {
        BeforeIsEarlier(keys, rows, i, x);
      }
    }
  }

  lemma BeforeIsEarlier<T(!new)>(keys: map<T, Key>, rows: seq<T>, i: nat, x: T)
    requires Ascending(rows, keys) && Elements(rows) == keys.Keys && i < |rows|
    requires x in keys && Less(keys[x], keys[rows[i]])
    ensures x in rows[..i]
  {
    hide Less;
    assert x in Elements(rows);
    var j :| 0 <= j < |rows| && rows[j] == x;
    LessTotal(keys[rows[i]], keys[x]);
  }

  /** Counting the smaller rows gives the index in the sorted listing. */
  lemma SortRank<T(!new)>(keys: map<T, Key>, i: nat)
    requires Distinct(keys) && i < |keys|
    ensures Sort(keys)[i] in keys
    ensures |Before(keys, Sort(keys)[i])| == i
  {
    hide Sort, Ascending, Distinct, Less;
    SortAscends(keys);
    SortElements(keys);
    BeforeIsPrefix(keys, Sort(keys), i);
    AscendingDistinct(Sort(keys), keys);
    PrefixDistinct(Sort(keys), i);
    DistinctCardinality(Sort(keys)[..i]);
  }

  lemma PrefixDistinct<T>(rows: seq<T>, i: nat)
    requires i <= |rows| && forall a, b :: 0 <= a < b < |rows| ==> rows[a] != rows[b]
    ensures forall a, b :: 0 <= a < b < i ==> rows[..i][a] != rows[..i][b]
  {}

  /** The rank of a row: how many rows come before it. */
  function Rank<T(!new, ==)>(keys: map<T, Key>, row: T): nat
    requires row in keys
  {
    |Before(keys, row)|
  }

  /** A smaller key means a strictly smaller rank, so ranks never tie. */
  lemma RankMonotone<T(!new)>(keys: map<T, Key>, a: T, b: T)
    requires Distinct(keys) && a in keys && b in keys
    ensures Less(keys[a], keys[b]) <==> Rank(keys, a) < Rank(keys, b)
    ensures a != b ==> Rank(keys, a) != Rank(keys, b)
    ensures Rank(keys, a) < |keys| && Sort(keys)[Rank(keys, a)] == a
  {
    SortAscends(keys);
    SortElements(keys);
    var sorted := Sort(keys);
    assert a in Elements(sorted) && b in Elements(sorted);
    var i :| 0 <= i < |sorted| && sorted[i] == a;
    var j :| 0 <= j < |sorted| && sorted[j] == b;
    SortRank(keys, i);
    SortRank(keys, j);
    LessTotal(keys[a], keys[b]);
  }
}
