/**
 The paged projection of hotkeys: a keyset walk over the table that hands out one binding per
 chord, whatever the page boundaries.
 */
module HotkeyWalk {
  import opened Wrappers
  import opened Ordering
  import opened Tables
  import opened Hotkeys
  import Listings

  /** Controls come before tabs, tabs before sounds, then the binding id decides. */
  function Precedence(bindings: map<string, Binding>, b: string): Key
    requires b in bindings
  {
    match bindings[b].owner
    case ControlOwner(_) => Key(0, Text(b))
    case TabOwner(_) => Key(1, Text(b))
    case SoundOwner(_) => Key(2, Text(b))
  }

  /** The bindings that can answer a chord. */
  function Answering(db: Db, chord: string): map<string, Key> {
    map b | b in db.bindings && db.bindings[b].normalized == Some(chord)
      && Eligible(db, b) :: Precedence(db.bindings, b)
  }

  /** The correlated subquery: `b` is the first answer to its own chord. */
  predicate Represents(db: Db, b: string) {
    && b in db.bindings && db.bindings[b].normalized.Some?
    && var answers := Answering(db, db.bindings[b].normalized.value);
       b in answers && forall a | a in answers :: a == b || Less(answers[b], answers[a])
  }

  function Representatives(db: Db): set<string> {
    set b | b in db.bindings && Represents(db, b)
  }

  function Beyond(ids: set<string>, after: Option<string>): set<string> {
    set b | b in ids && (after.None? || TextLess(after.value, b))
  }

  lemma IdsDistinct(ids: set<string>)
    ensures Distinct(IdKeys(ids))
  {}

  function InOrder(ids: set<string>): seq<string> {
    IdsDistinct(ids);
    Sort(IdKeys(ids))
  }

  /** One page: the first rows beyond the cursor, in binding id order. */
  function LoadHotkeyBindingsAfter(db: Db, after: Option<string>): seq<string> {
    var rows := InOrder(Beyond(Representatives(db), after));
    rows[..Listings.Min(Listings.PAGE_SIZE, |rows|)]
  }

  lemma InOrderFacts(ids: set<string>)
    ensures Ascending(InOrder(ids), IdKeys(ids)) && Elements(InOrder(ids)) == ids
    ensures forall i, j :: 0 <= i < j < |InOrder(ids)| ==> TextLess(InOrder(ids)[i], InOrder(ids)[j])
    ensures forall i :: 0 <= i < |InOrder(ids)| ==> InOrder(ids)[i] in ids
  {
    hide Sort;
    IdsDistinct(ids);
    SortAscends(IdKeys(ids));
    SortElements(IdKeys(ids));
    assert IdKeys(ids).Keys == ids;
  }

  /** The rows beyond the cursor split at the last row of a page. */
  lemma BeyondSplits(ids: set<string>, after: Option<string>, n: nat)
    requires 0 < n <= |InOrder(Beyond(ids, after))|
    ensures var rows := InOrder(Beyond(ids, after));
      InOrder(Beyond(ids, Some(rows[n - 1]))) == rows[n..]
  {
    hide InOrder;
    var all := Beyond(ids, after);
    var rows := InOrder(all);
    var cursor := rows[n - 1];
    var rest := Beyond(ids, Some(cursor));
    InOrderFacts(all);
    forall b ensures b in rest <==> b in rows[n..] {
      if b in rows[n..] {
        var i :| n <= i < |rows| && rows[i] == b;
      }
      if b in rest {
        if after.Some? { TextLessTransitive(after.value, cursor, b); }
        assert b in Elements(rows);
        var i :| 0 <= i < |rows| && rows[i] == b;
        TextLessTotal(cursor, b);
      }
    }
    SuffixSorts(rows[n..], rest);
  }

  lemma SuffixSorts(rows: seq<string>, ids: set<string>)
    requires forall i, j :: 0 <= i < j < |rows| ==> TextLess(rows[i], rows[j])
    requires forall b :: b in ids <==> b in rows
    ensures InOrder(ids) == rows
  {
    hide Sort;
    IdsDistinct(ids);
    assert Elements(rows) == ids == IdKeys(ids).Keys;
    SortUnique(rows, IdKeys(ids));
  }

  /** The projection's loop: page after page, until a page is short. */
  method ProjectBindings(db: Db) returns (projected: seq<string>)
    ensures projected == InOrder(Representatives(db))
  {
    hide InOrder, Representatives, Beyond;
    var after: Option<string> := None;
    var finished := false;
    projected := [];
    ghost var ids := Representatives(db);
    ghost var rest := InOrder(Beyond(ids, None));
    assert Beyond(ids, None) == ids by { BeyondNothing(ids); }
    while !finished
      invariant projected + rest == InOrder(ids)
      invariant if finished then rest == [] else rest == InOrder(Beyond(ids, after))
      decreases !finished, |rest|
    {
      var page := LoadHotkeyBindingsAfter(db, after);
      var count := |page|;
      if count > 0 {
        BeyondSplits(ids, after, count);
      }
      rest := rest[count..];
      after := if page == [] then None else Some(page[count - 1]);
      finished := count < Listings.PAGE_SIZE;
      projected := projected + page;
    }
  }

  lemma BeyondNothing(ids: set<string>)
    ensures Beyond(ids, None) == ids
  {}

  /** A control before a tab, a tab before a sound, and among equals the smaller id. */
  ghost predicate Outranks(owner: Owner, id: string, other: Owner, otherId: string) {
    || (owner.ControlOwner? && !other.ControlOwner?) || (owner.TabOwner? && other.SoundOwner?)
    || (owner.ControlOwner? && other.ControlOwner? && ComesFirst(id, otherId))
    || (owner.TabOwner? && other.TabOwner? && ComesFirst(id, otherId))
    || (owner.SoundOwner? && other.SoundOwner? && ComesFirst(id, otherId))
  }

  lemma PrecedenceIs(bindings: map<string, Binding>, a: string, b: string)
    requires a in bindings && b in bindings && Less(Precedence(bindings, a), Precedence(bindings, b))
    ensures Outranks(bindings[a].owner, a, bindings[b].owner, b)
  {
    hide ComesFirst;
    TextLessExactly(a, b);
  }

  /**
   One binding per chord. A chord that some eligible binding answers has exactly one row in the
   projection, the least by (control, then tab, then sound; then id); no other chord has any.
   */
  lemma OneRowPerChord(db: Db, chord: string)
    ensures var rows := InOrder(Representatives(db));
      && ((exists b :: Answers(db, b, chord)) <==> (exists b :: b in rows && Rings(db.bindings, b, chord)))
      && (forall a, b :: a in rows && b in rows && Rings(db.bindings, a, chord) && Rings(db.bindings, b, chord) ==>
           a == b)
      && (forall a, b :: a in rows && Rings(db.bindings, a, chord) && Answers(db, b, chord) && a != b ==>
            Outranks(db.bindings[a].owner, a, db.bindings[b].owner, b))
      && (forall i, j :: 0 <= i < j < |rows| ==> TextLess(rows[i], rows[j]))
  {
    hide InOrder, Live, Outranks;
    var rows := InOrder(Representatives(db));
    InOrderFacts(Representatives(db));
    forall b ensures b in rows <==> Represents(db, b) {
      assert b in rows <==> b in Elements(rows);
    }
    var answers := Answering(db, chord);
    forall b ensures b in answers <==> Answers(db, b, chord) {}
    assert Distinct(answers);
    if b :| Answers(db, b, chord) {
      LeastExists(answers);
      var least :| IsLeast(least, answers);
      assert Represents(db, least) && least in rows && Rings(db.bindings, least, chord);
    }
    forall a, b | a in rows && b in rows && Rings(db.bindings, a, chord)
      && Rings(db.bindings, b, chord) ensures a == b {
      assert Represents(db, a) && Represents(db, b);
      LessTotal(answers[a], answers[b]);
    }
    forall a, b | a in rows && Rings(db.bindings, a, chord) && Answers(db, b, chord) && a != b
      ensures Outranks(db.bindings[a].owner, a, db.bindings[b].owner, b)
    {
      assert Represents(db, a);
      PrecedenceIs(db.bindings, a, b);
    }
  }
}
