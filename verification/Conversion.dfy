/**
 Folders the user customised but the new generation no longer has: each becomes a manual tab
 holding exactly the sounds it listed, in the order it listed them.
 */
module Conversion {
  import opened Wrappers
  import opened Ordering
  import opened Tables
  import opened Listings

  // ---- decimal row ids ------------------------------------------------------------------

  function Decimal(n: nat): string {
    var digit := ['0', '1', '2', '3', '4', '5', '6', '7', '8', '9'][n % 10];
    if n < 10 then [digit] else Decimal(n / 10) + [digit]
  }

  lemma {:induction false} DecimalInjective(a: nat, b: nat)
    requires Decimal(a) == Decimal(b)
    ensures a == b
  {
    var x, y := Decimal(a), Decimal(b);
    assert x[|x| - 1] == y[|y| - 1];
    assert a % 10 == b % 10;
    DecimalLength(a);
    DecimalLength(b);
    if a >= 10 && b >= 10 {
      assert x[..|x| - 1] == Decimal(a / 10) && y[..|y| - 1] == Decimal(b / 10);
      DecimalInjective(a / 10, b / 10);
    }
  }

  lemma {:induction false} DecimalLength(n: nat)
    ensures |Decimal(n)| >= 1
    ensures |Decimal(n)| == 1 <==> n < 10
  {
    if n >= 10 {
      DecimalLength(n / 10);
    }
  }

  function ConvertedId(f: nat, generation: nat): string {
    "converted-folder-" + Decimal(f) + "-" + Decimal(generation)
  }

  lemma ConvertedIdInjective(a: nat, b: nat, generation: nat)
    requires ConvertedId(a, generation) == ConvertedId(b, generation)
    ensures a == b
  {
    var head, tail := "converted-folder-", "-" + Decimal(generation);
    var x, y := ConvertedId(a, generation), ConvertedId(b, generation);
    assert x[|head|..|x| - |tail|] == Decimal(a);
    assert y[|head|..|y| - |tail|] == Decimal(b);
    DecimalInjective(a, b);
  }

  // ---- which folders, and what they become ------------------------------------------------

  predicate Customised(db: Db, f: nat) {
    f in db.prefs || exists o :: o in db.overrides && o.folder == f
  }

  /** Customised folders shown before and absent from the new generation. */
  function Disappearing(db: Db, root: nat, active: nat, generation: nat): map<nat, Key> {
    map f | f in db.folders && db.folders[f].root == root
            && Presence(f, active) in db.presence && Presence(f, generation) !in db.presence
            && Customised(db, f) :: Key(0, Id(f))
  }

  function Converted(db: Db, root: nat, active: nat, generation: nat): seq<nat> {
    Sort(Disappearing(db, root, active, generation))
  }

  function NextPosition(tabs: map<nat, Tab>): int {
    if tabs == map[] then 0
    else
      TopTabExists(tabs);
      var top :| top in tabs && forall t | t in tabs :: tabs[t].position < tabs[top].position
                                                 || (tabs[t].position == tabs[top].position && t <= top);
      tabs[top].position + 1
  }

  lemma {:induction false} TopTabExists(tabs: map<nat, Tab>)
    requires tabs != map[]
    ensures exists top :: top in tabs && forall t | t in tabs ::
      tabs[t].position < tabs[top].position || (tabs[t].position == tabs[top].position && t <= top)
  {
    var keys := map t | t in tabs :: Key(-tabs[t].position, Id(-(t as int)));
    assert keys != map[] by { var t :| t in tabs; assert t in keys; }
    LeastExists(keys);
    var top :| IsLeast(top, keys);
    forall t | t in tabs
      ensures tabs[t].position < tabs[top].position || (tabs[t].position == tabs[top].position && t <= top)
    {
      assert t in keys && (t != top ==> Less(keys[top], keys[t]));
    }
  }

  function ConvertedTab(db: Db, f: nat, generation: nat, position: int): Tab
    requires f in db.folders
  {
    var name := if f in db.prefs && db.prefs[f].displayName.Some? then db.prefs[f].displayName.value
                else db.folders[f].name;
    Tab(ConvertedId(f, generation), name, position)
  }

  lemma ConvertedRows(db: Db, root: nat, active: nat, generation: nat)
    ensures Elements(Converted(db, root, active, generation)) == Disappearing(db, root, active, generation).Keys
    ensures Ascending(Converted(db, root, active, generation), Disappearing(db, root, active, generation))
    ensures forall i :: 0 <= i < |Converted(db, root, active, generation)| ==>
      Converted(db, root, active, generation)[i] in db.folders
  {
    SortElements(Disappearing(db, root, active, generation));
    SortAscends(Disappearing(db, root, active, generation));
  }

  /** The folder the tab with row id `id` is made from. */
  function SourceOf(db: Db, root: nat, active: nat, generation: nat, id: nat): (f: nat)
    requires NextId(db.tabs.Keys) <= id < NextId(db.tabs.Keys) + |Converted(db, root, active, generation)|
    ensures f in db.folders
  {
    ConvertedRows(db, root, active, generation);
    Converted(db, root, active, generation)[id - NextId(db.tabs.Keys)]
  }

  function ConvertedTabAt(db: Db, root: nat, active: nat, generation: nat, id: nat): Tab
    requires NextId(db.tabs.Keys) <= id < NextId(db.tabs.Keys) + |Converted(db, root, active, generation)|
  {
    ConvertedTab(db, SourceOf(db, root, active, generation, id), generation,
                 NextPosition(db.tabs) + (id - NextId(db.tabs.Keys)))
  }

  const EVERYTHING: Search := (name: string) => true

  /** ROW_NUMBER() over the effective sounds ordered by general position, public id. */
  function ConvertedPosition(db: Db, f: nat, active: nat, s: nat): int
    requires s in FolderKeys(db, f, active, EVERYTHING)
  {
    Rank(FolderKeys(db, f, active, EVERYTHING), s)
  }

  function ConvertedTabs(db: Db, root: nat, active: nat, generation: nat): map<nat, Tab> {
    map t: nat | NextId(db.tabs.Keys) <= t < NextId(db.tabs.Keys) + |Converted(db, root, active, generation)|
      :: ConvertedTabAt(db, root, active, generation, t)
  }

  function ConvertedMemberships(db: Db, root: nat, active: nat, generation: nat): map<Member, int> {
    var made := ConvertedTabs(db, root, active, generation);
    map t, s | t in made && s in db.sounds
               && s in FolderKeys(db, SourceOf(db, root, active, generation, t), active, EVERYTHING)
      :: Member(t, s) := ConvertedPosition(db, SourceOf(db, root, active, generation, t), active, s)
  }

  /** A converted id that some manual tab already has aborts the insert. */
  predicate ConversionTaken(db: Db, root: nat, active: nat, generation: nat) {
    exists f :: f in Disappearing(db, root, active, generation)
      && TabNamed(db.tabs, ConvertedId(f, generation)).Some?
  }

  function Convert(db: Db, root: nat, active: nat, generation: nat): (r: Result<Db, LibraryError>)
    ensures r.Success? ==> r.value == db.(tabs := r.value.tabs, memberships := r.value.memberships)
  {
    if ConversionTaken(db, root, active, generation) then Failure(Database)
    else Success(db.(
      tabs := db.tabs + ConvertedTabs(db, root, active, generation),
      memberships := db.memberships + ConvertedMemberships(db, root, active, generation)))
  }

  // ---- the invariant survives ----------------------------------------------------------------

  lemma SourcesDiffer(db: Db, root: nat, active: nat, generation: nat, a: nat, b: nat)
    requires a in ConvertedTabs(db, root, active, generation) && b in ConvertedTabs(db, root, active, generation)
    requires SourceOf(db, root, active, generation, a) == SourceOf(db, root, active, generation, b)
    ensures a == b
  {
    hide Converted, Disappearing, ConvertedTabAt, Ascending;
    ConvertedRows(db, root, active, generation);
    AscendingDistinct(Converted(db, root, active, generation), Disappearing(db, root, active, generation));
  }

  lemma ConvertedTabIsNew(db: Db, root: nat, active: nat, generation: nat, id: nat, t: nat)
    requires !ConversionTaken(db, root, active, generation)
    requires id in ConvertedTabs(db, root, active, generation) && t in db.tabs
    ensures db.tabs[t].publicId != ConvertedTabs(db, root, active, generation)[id].publicId
  {
    hide Disappearing, Converted, ConvertedId;
    ConvertedRows(db, root, active, generation);
    var f := SourceOf(db, root, active, generation, id);
    assert f in Elements(Converted(db, root, active, generation));
    assert TabNamed(db.tabs, ConvertedId(f, generation)).None?;
    assert t !in TabIds(db.tabs, ConvertedId(f, generation));
  }

  lemma ConvertedTabsUnique(db: Db, root: nat, active: nat, generation: nat)
    requires TabsOk(db.tabs, db.memberships, db.sounds) && !ConversionTaken(db, root, active, generation)
    ensures var tabs := db.tabs + ConvertedTabs(db, root, active, generation);
      forall a, b :: a in tabs && b in tabs && tabs[a].publicId == tabs[b].publicId ==> a == b
  {
    hide ConversionTaken, Disappearing, Converted, ConvertedId;
    var made := ConvertedTabs(db, root, active, generation);
    var tabs := db.tabs + made;
    forall a, b | a in tabs && b in tabs && tabs[a].publicId == tabs[b].publicId ensures a == b {
      if a in made && b in made {
        ConvertedIdInjective(SourceOf(db, root, active, generation, a), SourceOf(db, root, active, generation, b),
          generation);
        SourcesDiffer(db, root, active, generation, a, b);
      } else if a in made {
        ConvertedTabIsNew(db, root, active, generation, a, b);
      } else if b in made {
        ConvertedTabIsNew(db, root, active, generation, b, a);
      }
    }
  }

  lemma ConvertKeeps(db: Db, root: nat, active: nat, generation: nat)
    requires Ok(db) && Convert(db, root, active, generation).Success?
    ensures var next := Convert(db, root, active, generation).value;
      Ok(next) && next == db.(tabs := next.tabs, memberships := next.memberships)
  {
    hide TreeOk, FolderRootsOk, ClosureExact, PresenceOk, PresenceNew, RootsOk, LocationsOk, SoundsOk, LegacyOk,
         CustomOk, OwnersOk,
         ConversionTaken, ConvertedTabs;
    ConvertedTabsUnique(db, root, active, generation);
  }

  // ---- a converted tab lists what the folder listed --------------------------------------------

  lemma ConvertedFrom(db: Db, root: nat, active: nat, generation: nat, f: nat) returns (id: nat)
    requires f in Disappearing(db, root, active, generation)
    ensures id in ConvertedTabs(db, root, active, generation)
    ensures SourceOf(db, root, active, generation, id) == f
    ensures ConvertedTabs(db, root, active, generation)[id].publicId == ConvertedId(f, generation)
  {
    hide Disappearing, Converted, ConvertedId;
    ConvertedRows(db, root, active, generation);
    var rows := Converted(db, root, active, generation);
    assert f in Elements(rows);
    var i :| 0 <= i < |rows| && rows[i] == f;
    id := NextId(db.tabs.Keys) + i;
  }

  /** The converted tab's members are the folder's sounds, at the positions of the folder's order. */
  lemma ConvertedMembers(db: Db, root: nat, active: nat, generation: nat, id: nat, s: nat)
    requires TabsOk(db.tabs, db.memberships, db.sounds)
    requires Convert(db, root, active, generation).Success?
    requires id in ConvertedTabs(db, root, active, generation)
    ensures var next := Convert(db, root, active, generation).value;
            var all := FolderKeys(db, SourceOf(db, root, active, generation, id), active, EVERYTHING);
      && (Member(id, s) in next.memberships <==> s in all)
      && (s in all ==> next.memberships[Member(id, s)] == Rank(all, s))
  {
    hide ConversionTaken, Effective, Rank, Converted;
    assert id !in db.tabs;
  }

  /** The rows of the converted tab carry the folder's own order as their positions. */
  lemma ConvertedKeys(db: Db, root: nat, active: nat, generation: nat, id: nat, q: Search)
    requires TabsOk(db.tabs, db.memberships, db.sounds)
    requires Convert(db, root, active, generation).Success?
    requires id in ConvertedTabs(db, root, active, generation)
    ensures var next := Convert(db, root, active, generation).value;
            var f := SourceOf(db, root, active, generation, id);
      && TabKeys(next, id, q).Keys == FolderKeys(db, f, active, q).Keys
      && (forall s :: s in TabKeys(next, id, q) ==>
            s in FolderKeys(db, f, active, EVERYTHING)
            && TabKeys(next, id, q)[s].position == Rank(FolderKeys(db, f, active, EVERYTHING), s))
  {
    hide TabsOk, ConversionTaken, Effective, Rank, Converted, ConvertedMemberships;
    var next := Convert(db, root, active, generation).value;
    var all := FolderKeys(db, SourceOf(db, root, active, generation, id), active, EVERYTHING);
    forall s
      ensures Member(id, s) in next.memberships <==> s in all
      ensures s in all ==> next.memberships[Member(id, s)] == Rank(all, s)
    {
      ConvertedMembers(db, root, active, generation, id, s);
    }
  }

  lemma FolderKeysNarrow(db: Db, f: nat, active: nat, q: Search)
    requires SoundsOk(db.sounds)
    ensures Distinct(FolderKeys(db, f, active, q)) && Distinct(FolderKeys(db, f, active, EVERYTHING))
    ensures forall s :: s in FolderKeys(db, f, active, q) ==>
      s in FolderKeys(db, f, active, EVERYTHING)
      && FolderKeys(db, f, active, q)[s] == FolderKeys(db, f, active, EVERYTHING)[s]
  {
    hide Effective;
  }

  lemma TabKeysDistinct(db: Db, t: nat, q: Search)
    requires SoundsOk(db.sounds)
    ensures Distinct(TabKeys(db, t, q))
  {}

  /** Under every search, the converted tab lists exactly the folder's sounds in the folder's order. */
  lemma ConversionPreservesListing(db: Db, root: nat, active: nat, generation: nat, f: nat, q: Search)
    requires Ok(db) && Convert(db, root, active, generation).Success?
    requires f in Disappearing(db, root, active, generation)
    ensures var next := Convert(db, root, active, generation).value;
      && Ok(next)
      && Distinct(FolderKeys(db, f, active, q))
      && Listing(next, ManualTab(ConvertedId(f, generation)), q) == Sort(FolderKeys(db, f, active, q))
  {
    hide Ok, Sort, Disappearing, ConvertedTabs, ConvertedMemberships, ConvertedId, Rank, TabKeys, FolderKeys;
    var next := Convert(db, root, active, generation).value;
    ConvertKeeps(db, root, active, generation);
    var id := ConvertedFrom(db, root, active, generation, f);
    ConvertedLookup(next, id, ConvertedId(f, generation));
    ConvertedOrder(db, root, active, generation, id, q);
  }

  lemma ConvertedLookup(next: Db, id: nat, publicId: string)
    requires Ok(next) && id in next.tabs && next.tabs[id].publicId == publicId
    ensures TabNamed(next.tabs, publicId) == Some(id)
  {
    hide TreeState, RootsOk, LocationsOk, SoundsOk, LegacyOk, CustomOk, OwnersOk;
    assert id in TabIds(next.tabs, publicId);
  }

  lemma ConvertedOrder(db: Db, root: nat, active: nat, generation: nat, id: nat, q: Search)
    requires Ok(db) && Convert(db, root, active, generation).Success?
    requires id in ConvertedTabs(db, root, active, generation)
    ensures var next := Convert(db, root, active, generation).value;
            var f := SourceOf(db, root, active, generation, id);
      && Distinct(TabKeys(next, id, q)) && Distinct(FolderKeys(db, f, active, q))
      && Sort(TabKeys(next, id, q)) == Sort(FolderKeys(db, f, active, q))
  {
    hide TreeState, RootsOk, LocationsOk, SoundsOk, LegacyOk, CustomOk, OwnersOk,
         Sort, Rank, TabKeys, FolderKeys, Converted, ConvertedMemberships, ConversionTaken, TabsOk;
    var next := Convert(db, root, active, generation).value;
    var f := SourceOf(db, root, active, generation, id);
    var all, some, tab := FolderKeys(db, f, active, EVERYTHING), FolderKeys(db, f, active, q), TabKeys(next, id, q);
    ConvertedKeys(db, root, active, generation, id, q);
    FolderKeysNarrow(db, f, active, q);
    TabKeysDistinct(next, id, q);
    forall a, b | a in some && b in some && Less(some[a], some[b]) ensures Less(tab[a], tab[b]) {
      RankMonotone(all, a, b);
    }
    SortOrderIsomorphic(some, tab);
  }
}
