/**
 Ordering sibling folders by hand: moving one to an index, or one step up or down.
 */
module Siblings {
  import opened Wrappers
  import opened Ordering
  import opened Tables
  import opened FolderScan
  import opened Listings

  /** COALESCE(pref.sibling_position, folder.position), folder.id. */
  function SiblingKey(folders: map<nat, Folder>, prefs: map<nat, Pref>, f: nat): Key
    requires f in folders
  {
    var position := if f in prefs && prefs[f].siblingPosition.Some? then prefs[f].siblingPosition.value
                    else folders[f].position;
    Key(position, Id(f))
  }

  /** The folders on show next to `target`, itself included. */
  function Siblings(db: Db, target: nat): map<nat, Key> {
    map f | f in db.folders && target in db.folders && db.folders[target].root in db.roots
            && db.folders[f].root == db.folders[target].root && db.folders[f].parent == db.folders[target].parent
            && Presence(f, db.roots[db.folders[target].root].active) in db.presence
      :: SiblingKey(db.folders, db.prefs, f)
  }

  lemma SiblingsDistinct(db: Db, target: nat)
    ensures Distinct(Siblings(db, target))
    ensures forall f :: f in Siblings(db, target) ==>
      f in db.folders && Siblings(db, target)[f] == SiblingKey(db.folders, db.prefs, f)
  {}

  /** The sibling listing, hidden folders included. */
  function SiblingOrder(db: Db, target: nat): seq<nat> {
    SiblingsDistinct(db, target);
    Sort(Siblings(db, target))
  }

  /** Where the user has put the folder, or else where its row stands. */
  ghost function Place(db: Db, f: nat): int
    requires f in db.folders
  {
    match if f in db.prefs then db.prefs[f].siblingPosition else None
    case Some(position) => position
    case None => db.folders[f].position
  }

  /** Exactly the folders on show under the same parent, by place and then by row id. */
  lemma SiblingsExactly(db: Db, target: nat)
    requires target in db.folders && db.folders[target].root in db.roots
    ensures var rows := SiblingOrder(db, target);
      && (forall f :: f in rows <==>
            f in db.folders && db.folders[f].root == db.folders[target].root
            && db.folders[f].parent == db.folders[target].parent
            && Presence(f, db.roots[db.folders[target].root].active) in db.presence)
      && (forall i, j :: 0 <= i < j < |rows| ==>
            rows[i] in db.folders && rows[j] in db.folders
            && (Place(db, rows[i]) < Place(db, rows[j])
                || (Place(db, rows[i]) == Place(db, rows[j]) && rows[i] < rows[j])))
  {
    hide Sort;
    var rows, keys := SiblingOrder(db, target), Siblings(db, target);
    SiblingsDistinct(db, target);
    SortAscends(keys);
    SortElements(keys);
    forall f ensures f in rows <==> f in keys { assert f in rows <==> f in Elements(rows); }
  }

  function WithPosition(prefs: map<nat, Pref>, f: nat, position: int): map<nat, Pref> {
    prefs[f := if f in prefs then prefs[f].(siblingPosition := Some(position))
               else Pref(None, Some(position), false, false)]
  }

  /** One upsert per row: the row's index becomes its sibling position. */
  function Renumber(prefs: map<nat, Pref>, rows: seq<nat>, n: nat): map<nat, Pref>
    requires n <= |rows|
  {
    if n == 0 then prefs else WithPosition(Renumber(prefs, rows, n - 1), rows[n - 1], n - 1)
  }

  function RemoveInsert<T>(rows: seq<T>, i: nat, j: nat): seq<T>
    requires i < |rows| && j < |rows|
  {
    var rest := rows[..i] + rows[i + 1..];
    rest[..j] + [rows[i]] + rest[j..]
  }

  lemma SelectedIsSibling(db: Db, path: string, folder: Path)
    requires SelectedFolder(db, path, folder).Some?
    ensures var f := SelectedFolder(db, path, folder).value;
      && f in Siblings(db, f)
      && Rank(Siblings(db, f), f) < |SiblingOrder(db, f)|
      && SiblingOrder(db, f)[Rank(Siblings(db, f), f)] == f
  {
    hide Sort, Rank;
    var f := SelectedFolder(db, path, folder).value;
    SiblingsDistinct(db, f);
    RankMonotone(Siblings(db, f), f, f);
  }

  function Reorder(db: Db, path: string, folder: Path, index: nat): (Db, bool) {
    match SelectedFolder(db, path, folder)
    case None => (db, false)
    case Some(target) =>
      SelectedIsSibling(db, path, folder);
      var rows := SiblingOrder(db, target);
      var current := Rank(Siblings(db, target), target);
      var wanted := Min(index, |rows| - 1);
      if current == wanted then (db, false)
      else
        var moved := RemoveInsert(rows, current, wanted);
        (db.(prefs := Renumber(db.prefs, moved, |moved|)), true)
  }

  method ReorderFolder(c: Connection, path: string, folder: Path, index: nat) returns (changed: bool)
    modifies c
    ensures (c.db, changed) == Reorder(old(c.db), path, folder, index)
  {
    hide SelectedFolder, Siblings, Sort, Rank;
    var tx := new Transaction(c);
    var found := SelectedFolder(tx.db, path, folder);
    if found.None? {
      return false;
    }
    SelectedIsSibling(tx.db, path, folder);
    var target := found.value;
    var siblings := SiblingOrder(tx.db, target);
    var current := Rank(Siblings(tx.db, target), target);
    var wanted := Min(index, |siblings| - 1);
    if current == wanted {
      return false;
    }
    var moved := siblings[current];
    siblings := siblings[..current] + siblings[current + 1..];
    siblings := siblings[..wanted] + [moved] + siblings[wanted..];
    ghost var before := tx.db.prefs;
    for position := 0 to |siblings|
      invariant tx.db == c.db.(prefs := Renumber(before, siblings, position)) && c.db == old(c.db)
    {
      tx.db := tx.db.(prefs := WithPosition(tx.db.prefs, siblings[position], position));
    }
    tx.Commit(c);
    return true;
  }

  // ---- what reordering does ---------------------------------------------------------------------

  /** `rows` are numbered by their index; every other preference is as it was. */
  ghost predicate Numbered(prefs: map<nat, Pref>, next: map<nat, Pref>, rows: seq<nat>, n: nat)
    requires n <= |rows|
  {
    && (forall i :: 0 <= i < n ==> rows[i] in next && next[rows[i]].siblingPosition == Some(i))
    && (forall f :: f in next <==> f in prefs || f in rows[..n])
    && (forall f :: f in prefs ==> next[f].(siblingPosition := None) == prefs[f].(siblingPosition := None))
    && (forall f :: f in prefs && f !in rows[..n] ==> next[f] == prefs[f])
    && (forall f :: f in next && f !in prefs ==> next[f].(siblingPosition := None) == Pref(None, None, false, false))
  }

  lemma {:induction false} RenumberNumbers(prefs: map<nat, Pref>, rows: seq<nat>, n: nat)
    requires n <= |rows| && forall i, j :: 0 <= i < j < |rows| ==> rows[i] != rows[j]
    ensures Numbered(prefs, Renumber(prefs, rows, n), rows, n)
  {
    hide Numbered, WithPosition;
    if n == 0 {
      NumberedNone(prefs, rows);
    } else {
      RenumberNumbers(prefs, rows, n - 1);
      NumberedStep(prefs, Renumber(prefs, rows, n - 1), rows, n);
    }
  }

  lemma NumberedNone(prefs: map<nat, Pref>, rows: seq<nat>)
    ensures Numbered(prefs, prefs, rows, 0)
  {}

  lemma NumberedStep(prefs: map<nat, Pref>, prior: map<nat, Pref>, rows: seq<nat>, n: nat)
    requires 0 < n <= |rows| && forall i, j :: 0 <= i < j < |rows| ==> rows[i] != rows[j]
    requires Numbered(prefs, prior, rows, n - 1)
    ensures Numbered(prefs, WithPosition(prior, rows[n - 1], n - 1), rows, n)
  {
    assert rows[..n] == rows[..n - 1] + [rows[n - 1]];
    forall f ensures f in rows[..n] <==> f in rows[..n - 1] || f == rows[n - 1] {}
  }

  /** Where row `k` of the rearranged listing stood before. */
  function Origin(i: nat, j: nat, k: nat): nat {
    if k == j then i
    else
      var rest := if k < j then k else k - 1;
      if rest < i then rest else rest + 1
  }

  lemma OriginIs<T>(rows: seq<T>, i: nat, j: nat, k: nat)
    requires i < |rows| && j < |rows| && k < |rows|
    ensures |RemoveInsert(rows, i, j)| == |rows| && Origin(i, j, k) < |rows|
    ensures RemoveInsert(rows, i, j)[k] == rows[Origin(i, j, k)]
  {}

  lemma OriginsDiffer(i: nat, j: nat, a: nat, b: nat)
    requires a != b
    ensures Origin(i, j, a) != Origin(i, j, b)
  {}

  /** Every row comes from somewhere; moving back from `j` to `i` undoes the move. */
  lemma OriginsMeet(i: nat, j: nat, k: nat)
    ensures Origin(i, j, Origin(j, i, k)) == k
  {}

  lemma RemoveInsertElements<T>(rows: seq<T>, i: nat, j: nat)
    requires i < |rows| && j < |rows|
    ensures var moved := RemoveInsert(rows, i, j);
      && |moved| == |rows| && moved[j] == rows[i]
      && Elements(moved) == Elements(rows)
  {
    hide RemoveInsert, Origin;
    var moved := RemoveInsert(rows, i, j);
    OriginIs(rows, i, j, j);
    assert Origin(i, j, j) == i by { OriginOfMoved(i, j); }
    forall x | x in rows ensures x in moved {
      var k :| 0 <= k < |rows| && rows[k] == x;
      OriginIs(rows, j, i, k);
      OriginIs(rows, i, j, Origin(j, i, k));
      OriginsMeet(i, j, k);
      assert moved[Origin(j, i, k)] == x;
    }
    forall x | x in moved ensures x in rows {
      var k :| 0 <= k < |moved| && moved[k] == x;
      OriginIs(rows, i, j, k);
    }
  }

  lemma OriginOfMoved(i: nat, j: nat)
    ensures Origin(i, j, j) == i
  {}

  lemma RemoveInsertDistinct<T>(rows: seq<T>, i: nat, j: nat)
    requires i < |rows| && j < |rows| && forall a, b :: 0 <= a < b < |rows| ==> rows[a] != rows[b]
    ensures var moved := RemoveInsert(rows, i, j);
      forall a, b :: 0 <= a < b < |moved| ==> moved[a] != moved[b]
  {
    hide RemoveInsert, Origin;
    var moved := RemoveInsert(rows, i, j);
    OriginIs(rows, i, j, j);
    forall a, b | 0 <= a < b < |moved| ensures moved[a] != moved[b] {
      OriginIs(rows, i, j, a);
      OriginIs(rows, i, j, b);
      OriginsDiffer(i, j, a, b);
    }
  }

  lemma NumberedKeys(db: Db, next: Db, target: nat, rows: seq<nat>)
    requires Elements(rows) == Siblings(db, target).Keys
    requires next == db.(prefs := next.prefs) && Numbered(db.prefs, next.prefs, rows, |rows|)
    ensures var keys := Siblings(next, target);
      && keys.Keys == Siblings(db, target).Keys
      && forall i :: 0 <= i < |rows| ==> rows[i] in keys && keys[rows[i]] == Key(i, Id(rows[i]))
  {
    forall i | 0 <= i < |rows| ensures rows[i] in Siblings(db, target) {
      assert rows[i] in Elements(rows);
    }
  }

  /** A listing numbered by index is the sibling listing. */
  lemma NumberedIsOrder(db: Db, next: Db, target: nat, rows: seq<nat>)
    requires Elements(rows) == Siblings(db, target).Keys
    requires next == db.(prefs := next.prefs) && Numbered(db.prefs, next.prefs, rows, |rows|)
    ensures SiblingOrder(next, target) == rows
    ensures KeysAreRanks(next, target)
  {
    hide Siblings, Sort, Numbered;
    SiblingsDistinct(next, target);
    NumberedKeys(db, next, target, rows);
    SortUnique(rows, Siblings(next, target));
  }

  /** Every sibling's sort position is its index in the listing. */
  ghost predicate KeysAreRanks(db: Db, target: nat) {
    forall i :: 0 <= i < |SiblingOrder(db, target)| ==>
      SiblingOrder(db, target)[i] in Siblings(db, target)
      && Siblings(db, target)[SiblingOrder(db, target)[i]].position == i
  }

  /** Only the sibling positions of the listed folders may differ. */
  ghost predicate OnlyPositions(prefs: map<nat, Pref>, next: map<nat, Pref>, rows: seq<nat>) {
    && (forall f :: f in prefs ==> f in next && next[f].(siblingPosition := None) == prefs[f].(siblingPosition := None))
    && (forall f :: f !in rows ==> (f in next <==> f in prefs) && (f in prefs ==> next[f] == prefs[f]))
  }

  lemma NumberedOnly(prefs: map<nat, Pref>, next: map<nat, Pref>, moved: seq<nat>, rows: seq<nat>)
    requires Numbered(prefs, next, moved, |moved|) && Elements(moved) == Elements(rows)
    ensures OnlyPositions(prefs, next, rows)
  {
    assert moved[..|moved|] == moved;
    forall f ensures f in moved <==> f in rows {
      assert f in Elements(moved) <==> f in Elements(rows);
    }
  }

  /** The new order is a rearrangement of the old, without repetitions. */
  lemma MovedRows(db: Db, target: nat, i: nat, j: nat)
    requires i < |SiblingOrder(db, target)| && j < |SiblingOrder(db, target)|
    ensures var moved := RemoveInsert(SiblingOrder(db, target), i, j);
      && Elements(moved) == Elements(SiblingOrder(db, target)) == Siblings(db, target).Keys
      && (forall a, b :: 0 <= a < b < |moved| ==> moved[a] != moved[b])
  {
    hide Siblings, Sort, RemoveInsert;
    SiblingsDistinct(db, target);
    SortAscends(Siblings(db, target));
    SortElements(Siblings(db, target));
    AscendingDistinct(SiblingOrder(db, target), Siblings(db, target));
    RemoveInsertElements(SiblingOrder(db, target), i, j);
    RemoveInsertDistinct(SiblingOrder(db, target), i, j);
  }

  /**
   Reordering makes the sibling listing the remove-and-insert of the old one, clamped to the last
   index, leaves sort positions equal to indices, and changes no other preference of anyone.
   */
  lemma ReorderExact(db: Db, path: string, folder: Path, index: nat)
    requires Reorder(db, path, folder, index).1
    ensures SelectedFolder(db, path, folder).Some?
    ensures var next := Reorder(db, path, folder, index).0;
            var target := SelectedFolder(db, path, folder).value;
            var rows := SiblingOrder(db, target);
            var current := Rank(Siblings(db, target), target);
      && current < |rows| && rows[current] == target
      && SiblingOrder(next, target) == RemoveInsert(rows, current, Min(index, |rows| - 1))
      && KeysAreRanks(next, target)
      && next == db.(prefs := next.prefs) && OnlyPositions(db.prefs, next.prefs, rows)
  {
    hide SelectedFolder, Siblings, SiblingOrder, Rank, KeysAreRanks, Numbered, OnlyPositions, RemoveInsert, Renumber;
    SelectedIsSibling(db, path, folder);
    var target := SelectedFolder(db, path, folder).value;
    var rows := SiblingOrder(db, target);
    var current, wanted := Rank(Siblings(db, target), target), Min(index, |rows| - 1);
    var moved := RemoveInsert(rows, current, wanted);
    MovedRows(db, target, current, wanted);
    RenumberNumbers(db.prefs, moved, |moved|);
    NumberedIsOrder(db, Reorder(db, path, folder, index).0, target, moved);
    NumberedOnly(db.prefs, Reorder(db, path, folder, index).0.prefs, moved, rows);
  }

  /** A reorder changes the database if and only if the folder is on show and not at that index already. */
  lemma ReorderChangesExactly(db: Db, path: string, folder: Path, index: nat)
    ensures var (next, changed) := Reorder(db, path, folder, index);
            var target := SelectedFolder(db, path, folder);
      && (changed <==>
            target.Some? && var rows := SiblingOrder(db, target.value);
            !(index < |rows| && rows[index] == target.value)
            && !(index >= |rows| && |rows| > 0 && rows[|rows| - 1] == target.value))
      && (!changed ==> next == db)
  {
    hide SelectedFolder, Siblings, SiblingOrder, Rank, RemoveInsert, Renumber;
    if SelectedFolder(db, path, folder).Some? {
      var target := SelectedFolder(db, path, folder).value;
      SelectedIsSibling(db, path, folder);
      OrderFacts(db, target);
    }
  }

  ghost predicate HasNeighbour(rows: seq<nat>, f: nat, direction: int) {
    exists i :: 0 <= i < |rows| && rows[i] == f && 0 <= i + direction < |rows|
  }

  /**
   A move is refused for any direction but one up or one down. Otherwise it changes the database if and
   only if the folder is on show and has a neighbour on that side.
   */
  lemma MoveChangesExactly(db: Db, path: string, folder: Path, direction: int)
    ensures var moved := Move(db, path, folder, direction);
            var target := SelectedFolder(db, path, folder);
      && (moved.Failure? <==> direction != 1 && direction != -1)
      && (moved.Success? ==>
            && (moved.value.1 <==>
                  target.Some? && HasNeighbour(SiblingOrder(db, target.value), target.value, direction))
            && (!moved.value.1 ==> moved.value.0 == db))
  {
    hide SelectedFolder, Siblings, SiblingOrder, Rank;
    if SelectedFolder(db, path, folder).Some? {
      var target := SelectedFolder(db, path, folder).value;
      SelectedIsSibling(db, path, folder);
      OrderFacts(db, target);
    }
  }

  // ---- one step ------------------------------------------------------------------------------------

  function Move(db: Db, path: string, folder: Path, direction: int): Result<(Db, bool), LibraryError> {
    if direction != 1 && direction != -1 then Failure(InvalidData)
    else match SelectedFolder(db, path, folder)
         case None => Success((db, false))
         case Some(target) =>
           SelectedIsSibling(db, path, folder);
           var rows := SiblingOrder(db, target);
           var position: int := Rank(Siblings(db, target), target);
           if !(0 <= position + direction < |rows|) then Success((db, false))
           else
             var adjacent := rows[position + direction];
             var moved := WithPosition(db.prefs, target, position + direction);
             Success((db.(prefs := WithPosition(moved, adjacent, position)), true))
  }

  method MoveFolder(c: Connection, path: string, folder: Path, direction: int) returns (r: Result<bool, LibraryError>)
    modifies c
    ensures match Move(old(c.db), path, folder, direction)
      case Failure(e) => r == Failure(e) && c.db == old(c.db)
      case Success((next, changed)) => r == Success(changed) && c.db == next
  {
    hide SelectedFolder, Siblings, SiblingOrder, Rank;
    if direction != -1 && direction != 1 {
      return Failure(InvalidData);
    }
    var tx := new Transaction(c);
    var found := SelectedFolder(tx.db, path, folder);
    if found.None? {
      return Success(false);
    }
    SelectedIsSibling(tx.db, path, folder);
    var target := found.value;
    var ordered := SiblingOrder(tx.db, target);
    var position: int := Rank(Siblings(tx.db, target), target);
    if !(0 <= position + direction < |ordered|) {
      return Success(false);
    }
    var adjacent := ordered[position + direction];
    tx.db := tx.db.(prefs := WithPosition(tx.db.prefs, target, position + direction));
    tx.db := tx.db.(prefs := WithPosition(tx.db.prefs, adjacent, position));
    tx.Commit(c);
    return Success(true);
  }

  function Swap<T>(rows: seq<T>, i: nat): seq<T>
    requires i + 1 < |rows|
  {
    rows[i := rows[i + 1]][i + 1 := rows[i]]
  }

  /** The state after rows `lo` and `lo + 1` have exchanged ranks as their positions. */
  ghost predicate Exchanged(db: Db, next: Db, target: nat, lo: nat)
    requires lo + 1 < |SiblingOrder(db, target)|
  {
    var rows := SiblingOrder(db, target);
    var keys := Siblings(next, target);
    && keys.Keys == Siblings(db, target).Keys
    && (forall f :: f in keys && f != rows[lo] && f != rows[lo + 1] ==> keys[f] == Siblings(db, target)[f])
    && rows[lo] in keys && keys[rows[lo]] == Key(lo + 1, Id(rows[lo]))
    && rows[lo + 1] in keys && keys[rows[lo + 1]] == Key(lo, Id(rows[lo + 1]))
  }

  /** The siblings on either side of the pair already sort before and after the new positions. */
  ghost predicate Fits(db: Db, target: nat, lo: nat)
    requires lo + 1 < |SiblingOrder(db, target)|
  {
    var rows := SiblingOrder(db, target);
    var keys := Siblings(db, target);
    && (lo > 0 && rows[lo - 1] in keys ==> Less(keys[rows[lo - 1]], Key(lo, Id(rows[lo + 1]))))
    && (lo + 2 < |rows| && rows[lo + 2] in keys ==> Less(Key(lo + 1, Id(rows[lo])), keys[rows[lo + 2]]))
  }

  lemma OrderFacts(db: Db, target: nat)
    ensures Ascending(SiblingOrder(db, target), Siblings(db, target))
    ensures Elements(SiblingOrder(db, target)) == Siblings(db, target).Keys
    ensures forall i, j :: 0 <= i < j < |SiblingOrder(db, target)| ==>
      SiblingOrder(db, target)[i] != SiblingOrder(db, target)[j]
  {
    hide Siblings, Sort;
    SiblingsDistinct(db, target);
    SortAscends(Siblings(db, target));
    SortElements(Siblings(db, target));
    AscendingDistinct(SiblingOrder(db, target), Siblings(db, target));
  }

  lemma TwoPositions(db: Db, target: nat, a: nat, x: int, b: nat, y: int)
    requires a in Siblings(db, target) && b in Siblings(db, target) && a != b
    ensures var keys := Siblings(db.(prefs := WithPosition(WithPosition(db.prefs, a, x), b, y)), target);
      && keys.Keys == Siblings(db, target).Keys
      && (forall f :: f in keys && f != a && f != b ==> keys[f] == Siblings(db, target)[f])
      && keys[a] == Key(x, Id(a)) && keys[b] == Key(y, Id(b))
  {}

  lemma MoveExchanges(db: Db, path: string, folder: Path, direction: int)
    requires Move(db, path, folder, direction).Success? && Move(db, path, folder, direction).value.1
    ensures SelectedFolder(db, path, folder).Some?
    ensures var target := SelectedFolder(db, path, folder).value;
      target in Siblings(db, target)
    ensures var target := SelectedFolder(db, path, folder).value;
            var rank: int := Rank(Siblings(db, target), target);
            var lo := if direction == 1 then rank else rank - 1;
      && 0 <= lo && lo + 1 < |SiblingOrder(db, target)|
      && Exchanged(db, Move(db, path, folder, direction).value.0, target, lo)
  {
    hide SelectedFolder, Siblings, SiblingOrder, Rank, WithPosition, Ascending;
    SelectedIsSibling(db, path, folder);
    var target := SelectedFolder(db, path, folder).value;
    OrderFacts(db, target);
    var rows := SiblingOrder(db, target);
    var rank: int := Rank(Siblings(db, target), target);
    assert rows[rank + direction] in Elements(rows);
    TwoPositions(db, target, target, rank + direction, rows[rank + direction], rank);
  }

  lemma SwapElements<T>(rows: seq<T>, i: nat)
    requires i + 1 < |rows|
    ensures Elements(Swap(rows, i)) == Elements(rows)
  {
    var swapped := Swap(rows, i);
    forall x | x in rows ensures x in swapped {
      var k :| 0 <= k < |rows| && rows[k] == x;
      assert swapped[if k == i then i + 1 else if k == i + 1 then i else k] == x;
    }
  }

  lemma FittingSwapAscends(db: Db, next: Db, target: nat, lo: nat)
    requires lo + 1 < |SiblingOrder(db, target)| && Exchanged(db, next, target, lo) && Fits(db, target, lo)
    ensures Ascending(Swap(SiblingOrder(db, target), lo), Siblings(next, target))
  {
    hide Siblings, Sort, SiblingOrder;
    OrderFacts(db, target);
    var rows, before, keys := SiblingOrder(db, target), Siblings(db, target), Siblings(next, target);
    var swapped := Swap(rows, lo);
    forall i | 0 <= i < |swapped| ensures swapped[i] in keys {
      assert rows[if i == lo then lo + 1 else if i == lo + 1 then lo else i] in before;
    }
    forall i, j | 0 <= i < j < |swapped| ensures Less(keys[swapped[i]], keys[swapped[j]]) {
      var first, second := keys[rows[lo + 1]], keys[rows[lo]];
      if i < lo {
        assert i < lo - 1 ==> Less(before[rows[i]], before[rows[lo - 1]]);
        if i < lo - 1 { LessTransitive(before[rows[i]], before[rows[lo - 1]], first); }
        if j == lo + 1 { LessTransitive(before[rows[i]], first, second); }
      }
      if j > lo + 1 && i >= lo {
        assert j > lo + 2 ==> Less(before[rows[lo + 2]], before[rows[j]]);
        if j > lo + 2 && i <= lo + 1 { LessTransitive(second, before[rows[lo + 2]], before[rows[j]]); }
        if i == lo { LessTransitive(first, second, before[rows[j]]); }
      }
    }
  }

  /**
   A successful move is exactly an adjacent swap of the listing if and only if the pair's outer
   neighbours fit around the two ranks it writes.
   */
  lemma MoveIsSwapExactly(db: Db, path: string, folder: Path, direction: int)
    requires Move(db, path, folder, direction).Success? && Move(db, path, folder, direction).value.1
    ensures SelectedFolder(db, path, folder).Some?
    ensures var next := Move(db, path, folder, direction).value.0;
            var target := SelectedFolder(db, path, folder).value;
            var rank: int := Rank(Siblings(db, target), target);
            var lo := if direction == 1 then rank else rank - 1;
      && 0 <= lo && lo + 1 < |SiblingOrder(db, target)|
      && (SiblingOrder(next, target) == Swap(SiblingOrder(db, target), lo) <==> Fits(db, target, lo))
  {
    hide Move, Siblings, SiblingOrder, Rank, SelectedFolder, Exchanged, Fits;
    MoveExchanges(db, path, folder, direction);
    var target := SelectedFolder(db, path, folder).value;
    var rank: int := Rank(Siblings(db, target), target);
    ExchangeIsSwapExactly(db, Move(db, path, folder, direction).value.0, target,
      if direction == 1 then rank else rank - 1);
  }

  lemma ExchangeIsSwapExactly(db: Db, next: Db, target: nat, lo: nat)
    requires lo + 1 < |SiblingOrder(db, target)| && Exchanged(db, next, target, lo)
    ensures SiblingOrder(next, target) == Swap(SiblingOrder(db, target), lo) <==> Fits(db, target, lo)
  {
    hide Siblings, Sort;
    var rows := SiblingOrder(db, target);
    OrderFacts(db, target);
    if Fits(db, target, lo) {
      SiblingsDistinct(next, target);
      FittingSwapAscends(db, next, target, lo);
      SwapElements(rows, lo);
      SortUnique(Swap(rows, lo), Siblings(next, target));
    } else if SiblingOrder(next, target) == Swap(rows, lo) {
      SwappedFits(db, next, target, lo);
    }
  }

  lemma SwappedFits(db: Db, next: Db, target: nat, lo: nat)
    requires lo + 1 < |SiblingOrder(db, target)| && Exchanged(db, next, target, lo)
    requires SiblingOrder(next, target) == Swap(SiblingOrder(db, target), lo)
    ensures Fits(db, target, lo)
  {
    hide Siblings, Sort, SiblingOrder;
    OrderFacts(db, target);
    OrderFacts(next, target);
    var rows, keys := SiblingOrder(db, target), Siblings(next, target);
    var swapped := Swap(rows, lo);
    assert lo > 0 ==> Less(keys[swapped[lo - 1]], keys[swapped[lo]]);
    assert lo + 2 < |rows| ==> Less(keys[swapped[lo + 1]], keys[swapped[lo + 2]]);
  }

  /** Where sort positions equal indices, as every reorder leaves them, a move is a swap and keeps them so. */
  lemma MoveOnRanks(db: Db, path: string, folder: Path, direction: int)
    requires Move(db, path, folder, direction).Success? && Move(db, path, folder, direction).value.1
    requires SelectedFolder(db, path, folder).Some? && KeysAreRanks(db, SelectedFolder(db, path, folder).value)
    ensures var next := Move(db, path, folder, direction).value.0;
            var target := SelectedFolder(db, path, folder).value;
            var rank: int := Rank(Siblings(db, target), target);
            var lo := if direction == 1 then rank else rank - 1;
      && 0 <= lo && lo + 1 < |SiblingOrder(db, target)|
      && SiblingOrder(next, target) == Swap(SiblingOrder(db, target), lo)
      && KeysAreRanks(next, target)
  {
    hide Move, Siblings, Sort, Rank, SelectedFolder;
    MoveIsSwapExactly(db, path, folder, direction);
    MoveExchanges(db, path, folder, direction);
    var target := SelectedFolder(db, path, folder).value;
    OrderFacts(db, target);
  }

  /**
   Straight after a scan every sibling has position 0, and then a move is an adjacent swap only
   when the pair is the last two siblings.
   */
  lemma MoveAfterScan(db: Db, path: string, folder: Path, direction: int)
    requires Move(db, path, folder, direction).Success? && Move(db, path, folder, direction).value.1
    requires SelectedFolder(db, path, folder).Some?
    requires var target := SelectedFolder(db, path, folder).value;
      forall f :: f in Siblings(db, target) ==> Siblings(db, target)[f].position == 0
    ensures var next := Move(db, path, folder, direction).value.0;
            var target := SelectedFolder(db, path, folder).value;
            var rank: int := Rank(Siblings(db, target), target);
            var lo := if direction == 1 then rank else rank - 1;
      && 0 <= lo && lo + 1 < |SiblingOrder(db, target)|
      && (SiblingOrder(next, target) == Swap(SiblingOrder(db, target), lo) <==> lo + 2 == |SiblingOrder(db, target)|)
  {
    hide Move, Siblings, Sort, Rank, SelectedFolder;
    MoveIsSwapExactly(db, path, folder, direction);
    OrderFacts(db, SelectedFolder(db, path, folder).value);
  }

  // ---- three freshly scanned siblings ------------------------------------------------------------

  function ThreeFolders(): map<nat, Folder> {
    map[1 := Folder(1, None, ["a"], "a", 0), 2 := Folder(1, None, ["b"], "b", 0), 3 := Folder(1, None, ["c"], "c", 0)]
  }

  function ThreeSiblings(): Db {
    Db(map[1 := Root("/music", 0, 1)], map[], ThreeFolders(),
       {Presence(1, 1), Presence(2, 1), Presence(3, 1)}, map[Link(1, 1) := 0, Link(2, 2) := 0, Link(3, 3) := 0],
       map[], map[], map[], map[], map[], map[], map[], map[], map[])
  }

  function ThreeKeys(): map<nat, Key> {
    map[1 := Key(0, Id(1)), 2 := Key(0, Id(2)), 3 := Key(0, Id(3))]
  }

  lemma ThreeSiblingsKeys()
    ensures Siblings(ThreeSiblings(), 1) == ThreeKeys()
  {
    var keys := Siblings(ThreeSiblings(), 1);
    assert 1 in ThreeFolders() && 2 in ThreeFolders() && 3 in ThreeFolders();
    forall f ensures f in keys <==> f in ThreeKeys() {}
  }

  lemma ThreeKeysLess()
    ensures var keys := ThreeKeys(); Less(keys[1], keys[2]) && Less(keys[2], keys[3]) && Less(keys[1], keys[3])
    ensures Distinct(ThreeKeys())
  {}

  lemma ThreeKeysFirst()
    ensures Before(ThreeKeys(), 1) == {}
  {}

  lemma ThreeKeysSorted()
    ensures Distinct(ThreeKeys()) && Sort(ThreeKeys()) == [1, 2, 3]
  {
    hide Sort, Less, Distinct;
    var rows: seq<nat> := [1, 2, 3];
    ThreeKeysLess();
    assert Elements(rows) == ThreeKeys().Keys by { assert 1 in rows && 2 in rows && 3 in rows; }
    SortUnique(rows, ThreeKeys());
  }

  lemma ThreeSiblingsOrder()
    ensures SiblingOrder(ThreeSiblings(), 1) == [1, 2, 3]
    ensures Siblings(ThreeSiblings(), 1) == ThreeKeys()
    ensures Before(Siblings(ThreeSiblings(), 1), 1) == {}
  {
    hide Sort, Siblings, ThreeSiblings, ThreeKeys, Before;
    ThreeSiblingsKeys();
    ThreeKeysSorted();
    ThreeKeysFirst();
  }

  lemma ThreeSiblingsSelected()
    ensures SelectedFolder(ThreeSiblings(), "/music", ["a"]) == Some(1)
  {
    var db := ThreeSiblings();
    assert 1 in db.roots && 1 in db.folders;
    assert RootIds(db.roots, "/music") == {1};
    assert db.folders[2].path[0] != "a" && db.folders[3].path[0] != "a";
    assert FolderIds(db.folders, 1, ["a"]) == {1};
  }

  /** So a move is no adjacent swap in general: it fails on the first of three freshly scanned siblings. */
  lemma MoveMisses()
    ensures var moved := Move(ThreeSiblings(), "/music", ["a"], 1);
      && moved.Success? && moved.value.1
      && SiblingOrder(ThreeSiblings(), 1) == [1, 2, 3] && SiblingOrder(moved.value.0, 1) != [2, 1, 3]
  {
    hide Siblings, SiblingOrder, SelectedFolder, ThreeSiblings;
    ThreeSiblingsOrder();
    ThreeSiblingsSelected();
    SelectedIsSibling(ThreeSiblings(), "/music", ["a"]);
    MoveAfterScan(ThreeSiblings(), "/music", ["a"], 1);
    assert Swap([1, 2, 3], 0) == [2, 1, 3];
  }
}
