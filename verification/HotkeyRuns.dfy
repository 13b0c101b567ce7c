/**
 Hotkey commands whose checks and commits interleave, with one another and with changes of the
 library that bring sounds back to life. A commit keeps chords exclusive exactly when its own check
 would still pass at that moment, and a whole run does exactly when all commits and changes do.
 */
module HotkeyRuns {
  import opened Wrappers
  import opened Ordering
  import opened Tables
  import opened FolderScan
  import opened RootScan
  import opened Cascade
  import opened Finish
  import opened FinishEffects
  import opened Hotkeys
  import opened HotkeyCommands

  // ---- one commit ----------------------------------------------------------------------------------

  /** The new row can answer a press. */
  predicate Ready(db: Db, owner: Owner) {
    owner.SoundOwner? ==> Live(db, owner.sound)
  }

  /** No control or tab chord would be shared: what a check at the time of the commit finds. */
  predicate Clear(db: Db, target: Target, owner: Owner, chord: string) {
    if owner.SoundOwner? then !(Ready(db, owner) && Conflict(db, target.id, Some(chord), true, target.scope))
    else !Conflict(db, target.id, Some(chord), false, None)
  }

  /** A control's or tab's row is the only one with its owner. */
  lemma OnlyRow(bindings: map<string, Binding>, target: Target, owner: Owner, b: string)
    requires WellNamed(bindings) && Suits(target, owner) && !owner.SoundOwner?
    requires b in bindings && SameSlot(bindings[b], owner, target.scope)
    ensures b == target.id
  {}

  lemma ConflictBreaks(db: Db, next: Db, target: Target, owner: Owner, h: string, b: string)
    requires TableOk(db) && Committed(db, next, target, owner, Some(h)) && Suits(target, owner)
    requires b in db.bindings && Ready(db, owner)
    requires Conflicting(db, b, target.id, h, owner.SoundOwner?, target.scope)
    ensures !Exclusive(next)
  {
    hide Live, UniqueSlots;
    assert b in next.bindings && next.bindings[b] == db.bindings[b] by {
      if !owner.SoundOwner? && SameSlot(db.bindings[b], owner, target.scope) {
        OnlyRow(db.bindings, target, owner, b);
      }
    }
    EligibleStays(db, next, b);
    if owner.SoundOwner? {
      LiveIgnoresBindings(db, next.bindings, owner.sound);
      assert Rings(next.bindings, b, h) && Answers(next, target.id, h);
    } else {
      assert Rings(next.bindings, target.id, h) && Answers(next, b, h);
    }
  }

  lemma ClearKeeps(db: Db, next: Db, target: Target, owner: Owner, h: string)
    requires TableOk(db) && Exclusive(db) && Committed(db, next, target, owner, Some(h)) && Suits(target, owner)
    requires Clear(db, target, owner, h)
    ensures Exclusive(next)
  {
    hide Live, SameSlot, UniqueSlots;
    forall a, b, chord | Rings(next.bindings, a, chord) && Answers(next, b, chord) && a != b
      ensures next.bindings[a].owner.SoundOwner?
    {
      if a != target.id { EligibleStays(db, next, a); }
      if b != target.id { EligibleStays(db, next, b); }
      if owner.SoundOwner? { LiveIgnoresBindings(db, next.bindings, owner.sound); }
      assert a != target.id && b != target.id ==> Rings(db.bindings, a, chord) && Answers(db, b, chord);
      var other := if a == target.id then b else a;
      assert chord == h && Ready(db, owner) && (owner.SoundOwner? || target.scope.None?) ==>
        !Conflicting(db, other, target.id, h, owner.SoundOwner?, target.scope);
    }
  }

  /**
   A commit leaves every control and tab chord unshared if and only if a check at the time of the
   commit passes. A sound that is not live may take any chord; it answers no press.
   */
  lemma CommitExclusiveExactly(db: Db, next: Db, target: Target, owner: Owner, h: string)
    requires TableOk(db) && Exclusive(db) && Committed(db, next, target, owner, Some(h)) && Suits(target, owner)
    ensures Exclusive(next) <==> Clear(db, target, owner, h)
  {
    hide Live, UniqueSlots, WellNamed, Exclusive, Committed, Conflicting;
    if Clear(db, target, owner, h) {
      ClearKeeps(db, next, target, owner, h);
    } else {
      assert owner.SoundOwner? || target.scope.None?;
      var b :| b in db.bindings && Conflicting(db, b, target.id, h, owner.SoundOwner?, target.scope);
      ConflictBreaks(db, next, target, owner, h, b);
    }
  }

  /** Some row that stays would answer the chord in a scope that meets the target's. */
  predicate Overlapping(db: Db, target: Target, owner: Owner, chord: string) {
    exists b :: b in db.bindings && !SameSlot(db.bindings[b], owner, target.scope)
      && Conflicting(db, b, target.id, chord, false, target.scope)
  }

  /** With no overlap before, a commit leaves none if and only if no row that stays overlaps the new one. */
  lemma CommitNoOverlapExactly(db: Db, next: Db, target: Target, owner: Owner, h: string)
    requires NoOverlap(db) && Committed(db, next, target, owner, Some(h))
    ensures NoOverlap(next) <==> !(Ready(db, owner) && Overlapping(db, target, owner, h))
  {
    hide Live, SameSlot;
    if owner.SoundOwner? { LiveIgnoresBindings(db, next.bindings, owner.sound); }
    if Ready(db, owner) && Overlapping(db, target, owner, h) {
      var b :| b in db.bindings && !SameSlot(db.bindings[b], owner, target.scope)
        && Conflicting(db, b, target.id, h, false, target.scope);
      EligibleStays(db, next, b);
      assert Answers(next, b, h) && Answers(next, target.id, h);
    } else {
      forall a, b, chord | Answers(next, a, chord) && Answers(next, b, chord) && a != b
        ensures !ScopesMeet(next.bindings[a].scope, next.bindings[b].scope)
      {
        if a != target.id { EligibleStays(db, next, a); }
        if b != target.id { EligibleStays(db, next, b); }
        assert a != target.id && b != target.id ==> Answers(db, a, chord) && Answers(db, b, chord);
        var other := if a == target.id then b else a;
        var same := other in db.bindings && SameSlot(db.bindings[other], owner, target.scope);
        assert chord == h && Ready(db, owner) ==> same || !Conflicting(db, other, target.id, h, false, target.scope);
      }
    }
  }

  // ---- one change of the library ----------------------------------------------------------------------

  /** Anything may change but the hotkey rows, which may only lose their chord or go with their owner. */
  predicate OnlyLoses(bindings: map<string, Binding>, next: map<string, Binding>) {
    forall b | b in next :: b in bindings
      && next[b].owner == bindings[b].owner && next[b].scope == bindings[b].scope
      && (next[b].normalized == bindings[b].normalized || next[b].normalized.None?)
  }

  /** The row did not answer the chord before, and does now: its sound has become live. */
  ghost predicate Revives(db: Db, next: Db, b: string, chord: string) {
    Answers(next, b, chord) && !Answers(db, b, chord)
  }

  /** No sound that has become live rings a control's or a tab's chord. */
  ghost predicate RevivesAlone(db: Db, next: Db) {
    forall a, b, chord :: Revives(db, next, b, chord) && Rings(next.bindings, a, chord) && a != b
      ==> next.bindings[a].owner.SoundOwner?
  }

  /** No sound that has become live overlaps another row that answers its chord. */
  ghost predicate RevivesApart(db: Db, next: Db) {
    forall a, b, chord :: Revives(db, next, b, chord) && Answers(next, a, chord) && a != b
      ==> !ScopesMeet(next.bindings[a].scope, next.bindings[b].scope)
  }

  /** A change of the library shares a control or tab chord exactly through a sound that becomes live. */
  lemma ReviveExactly(db: Db, next: Db)
    requires OnlyLoses(db.bindings, next.bindings)
    ensures Exclusive(db) ==> (Exclusive(next) <==> RevivesAlone(db, next))
    ensures NoOverlap(db) ==> (NoOverlap(next) <==> RevivesApart(db, next))
    ensures TableOk(db) ==> TableOk(next)
  {
    hide Live;
    assert forall b, h :: Rings(next.bindings, b, h) ==> Rings(db.bindings, b, h);
    assert TableOk(db) ==> TableOk(next) by { hide Eligible; }
    if Exclusive(db) && RevivesAlone(db, next) {
      forall a, b, h | Rings(next.bindings, a, h) && Answers(next, b, h) && a != b
        ensures next.bindings[a].owner.SoundOwner?
      {
        assert !Revives(db, next, b, h) ==> Rings(db.bindings, a, h) && Answers(db, b, h);
      }
    }
    if NoOverlap(db) && RevivesApart(db, next) {
      forall a, b, h | Answers(next, a, h) && Answers(next, b, h) && a != b
        ensures !ScopesMeet(next.bindings[a].scope, next.bindings[b].scope)
      {
        assert !Revives(db, next, b, h) && !Revives(db, next, a, h) ==> Answers(db, a, h) && Answers(db, b, h);
      }
    }
  }

  /** A finish only takes chords away. */
  lemma FinishLoses(db: Db, path: string, generation: nat)
    requires Ok(db) && Verified(db, path, generation) && FinishScan(db, path, generation).Success?
    ensures OnlyLoses(db.bindings, FinishScan(db, path, generation).value.bindings)
  {
    hide Ok, FinishScan, Gone;
    FinishDemotes(db, path, generation);
  }

  /** Removing a root only takes rows away. */
  lemma RemoveLoses(db: Db, path: string)
    requires Ok(db)
    ensures OnlyLoses(db.bindings, RemoveRoot(db, path).bindings)
  {
    hide Ok, RemoveRoot, PrefsSurvive, OverridesSurvive, ClosureSurvives, PresenceSurvives, MembersSurvive;
    RemoveRootCascades(db, path);
  }

  // ---- runs of separate checks and commits ------------------------------------------------------------

  /** What a command that has passed its check goes on to commit. */
  datatype Pending = Pending(target: Target, chord: Option<string>)

  datatype Session = Session(db: Db, pending: map<nat, Pending>)

  datatype Move = Check(ticket: nat, command: Command) | Commit(ticket: nat) | Change(next: Db)

  /** A refused check leaves nothing to commit; a commit happens once; a change gives no row a chord. */
  function Act(s: Session, canonicalize: Canonicalizer, move: Move): Session {
    match move
    case Check(ticket, command) =>
      var target, chord := TargetOf(s.db, command), ParseHotkey(canonicalize, command.hotkey);
      if target.Failure? || chord.Failure?
        || Conflict(s.db, target.value.id, chord.value, target.value.mayShare, target.value.scope)
      then s
      else s.(pending := s.pending[ticket := Pending(target.value, chord.value)])
    case Commit(ticket) =>
      if ticket !in s.pending then s
      else
        var p := s.pending[ticket];
        (match CommitBinding(s.db, canonicalize, p.target, p.chord)
         case Failure(_) => s.(pending := s.pending - {ticket})
         case Success(next) => Session(next, s.pending - {ticket}))
    case Change(next) => if OnlyLoses(s.db.bindings, next.bindings) then s.(db := next) else s
  }

  /**
   A check changes no row, and leaves something to commit if and only if the command's control or tab
   exists, its chord parses, and no row but its own has the chord in use.
   */
  lemma CheckPendsExactly(s: Session, canonicalize: Canonicalizer, ticket: nat, command: Command)
    requires TableOk(s.db) && SoundsOk(s.db.sounds) && FreshFor(s.db, command) && ticket !in s.pending
    ensures var next := Act(s, canonicalize, Check(ticket, command));
      && next.db == s.db
      && (ticket in next.pending <==>
            && (command.SetSound? || Named(s.db, command))
            && (command.hotkey.Some? ==>
                  && canonicalize(command.hotkey.value).Some?
                  && !InUse(s.db, command, canonicalize(command.hotkey.value).value)))
      && (forall t :: t != ticket ==> (t in next.pending <==> t in s.pending))
      && (forall t :: t in s.pending ==> next.pending[t] == s.pending[t])
  {
    hide UniqueSlots, WellNamed, SoundsOk, FreshFor, Conflicting, InUse, SoundBindingId, Named;
    if !command.SetSound? { NamedTarget(s.db, command); OwnerNeeded(s.db, command); }
    if TargetOf(s.db, command).Success? && command.hotkey.Some? && canonicalize(command.hotkey.value).Some? {
      ConflictIsUse(s.db, command, canonicalize(command.hotkey.value).value);
    }
  }

  /** A check and a commit with nothing in between come to the uninterrupted command. */
  lemma CheckThenCommit(s: Session, canonicalize: Canonicalizer, ticket: nat, command: Command)
    requires ticket !in s.pending
    ensures Act(Act(s, canonicalize, Check(ticket, command)), canonicalize, Commit(ticket)).db
         == Perform(s.db, canonicalize, command)
  {
    hide Conflict, CommitBinding, SoundBindingId;
  }

  /** A command commits once: whatever comes of it, nothing is left to commit, and no other command is touched. */
  lemma CommitOnce(s: Session, canonicalize: Canonicalizer, ticket: nat)
    ensures var next := Act(s, canonicalize, Commit(ticket));
      && Act(next, canonicalize, Commit(ticket)) == next
      && (forall t :: t in next.pending <==> t in s.pending && t != ticket)
      && (forall t :: t in next.pending ==> next.pending[t] == s.pending[t])
      && (ticket !in s.pending ==> next.db == s.db)
  {
    hide CommitBinding;
    assert ticket !in s.pending ==> s.pending - {ticket} == s.pending;
  }

  /** The move is a commit that writes this chord for this owner. */
  ghost predicate Commits(s: Session, canonicalize: Canonicalizer, move: Move, target: Target, owner: Owner,
                          chord: string) {
    && move.Commit? && move.ticket in s.pending && s.pending[move.ticket] == Pending(target, Some(chord))
    && OwnerOf(s.db, target.owner) == Some(owner) && CommitBinding(s.db, canonicalize, target, Some(chord)).Success?
  }

  /** A commit would still pass its check at this moment; a change revives no sound with a control's or tab's chord. */
  ghost predicate MoveClear(s: Session, canonicalize: Canonicalizer, move: Move) {
    && (forall target, owner, chord :: Commits(s, canonicalize, move, target, owner, chord) ==>
          Clear(s.db, target, owner, chord))
    && (move.Change? && OnlyLoses(s.db.bindings, move.next.bindings) ==> RevivesAlone(s.db, move.next))
  }

  /** At every point of the run, from this one on. */
  ghost predicate AllClear(s: Session, canonicalize: Canonicalizer, moves: seq<Move>)
    decreases |moves|
  {
    moves != [] ==>
      MoveClear(s, canonicalize, moves[0]) && AllClear(Act(s, canonicalize, moves[0]), canonicalize, moves[1..])
  }

  /** A commit's row overlaps no row that stays; a change revives no sound that overlaps another row. */
  ghost predicate MoveApart(s: Session, canonicalize: Canonicalizer, move: Move) {
    && (forall target, owner, chord :: Commits(s, canonicalize, move, target, owner, chord) ==>
          !(Ready(s.db, owner) && Overlapping(s.db, target, owner, chord)))
    && (move.Change? && OnlyLoses(s.db.bindings, move.next.bindings) ==> RevivesApart(s.db, move.next))
  }

  ghost predicate AllApart(s: Session, canonicalize: Canonicalizer, moves: seq<Move>)
    decreases |moves|
  {
    moves != [] ==>
      MoveApart(s, canonicalize, moves[0]) && AllApart(Act(s, canonicalize, moves[0]), canonicalize, moves[1..])
  }

  ghost predicate AllDisjoint(s: Session, canonicalize: Canonicalizer, moves: seq<Move>)
    decreases |moves|
  {
    NoOverlap(s.db) && (moves != [] ==> AllDisjoint(Act(s, canonicalize, moves[0]), canonicalize, moves[1..]))
  }

  ghost predicate AllExclusive(s: Session, canonicalize: Canonicalizer, moves: seq<Move>)
    decreases |moves|
  {
    Exclusive(s.db) && (moves != [] ==> AllExclusive(Act(s, canonicalize, moves[0]), canonicalize, moves[1..]))
  }

  ghost predicate SuitsRecord(target: Target) {
    match target.owner
    case OfSound(_) => !Reserved(target.id) && !Blank(target.id)
    case OfControl(action) => target.id == ControlId(action) && target.scope.None? && !target.mayShare
    case OfTab(tab) => target.id == TabId(tab) && target.scope.None? && !target.mayShare
  }

  ghost predicate SessionOk(s: Session) {
    TableOk(s.db) && forall t :: t in s.pending ==> SuitsRecord(s.pending[t].target)
  }

  /** New ids are neither reserved nor blank, as random UUIDs are. */
  ghost predicate NewIdsOk(moves: seq<Move>) {
    forall i :: 0 <= i < |moves| && moves[i].Check? && moves[i].command.SetSound? ==>
      !Reserved(moves[i].command.newId) && !Blank(moves[i].command.newId)
  }

  lemma CheckKeeps(s: Session, canonicalize: Canonicalizer, move: Move)
    requires SessionOk(s) && move.Check?
    requires move.command.SetSound? ==> !Reserved(move.command.newId) && !Blank(move.command.newId)
    ensures SessionOk(Act(s, canonicalize, move)) && Act(s, canonicalize, move).db == s.db
  {
    hide Conflict, UniqueSlots, ParseHotkey;
  }

  lemma SuitsOwner(db: Db, target: Target, owner: Owner)
    requires SuitsRecord(target) && OwnerOf(db, target.owner) == Some(owner)
    ensures Suits(target, owner)
  {}

  /** A move keeps the table well formed, and keeps chords exclusive exactly when it is clear. */
  lemma MoveActs(s: Session, canonicalize: Canonicalizer, move: Move)
    requires SessionOk(s) && Exclusive(s.db) && !move.Check?
    ensures SessionOk(Act(s, canonicalize, move))
    ensures Exclusive(Act(s, canonicalize, move).db) <==> MoveClear(s, canonicalize, move)
  {
    hide UniqueSlots, WellNamed, Exclusive, Committed, SetBinding, OwnerOf, Clear, SuitsRecord, Suits, OnlyLoses,
         RevivesAlone;
    match move
    case Change(next) =>
      if OnlyLoses(s.db.bindings, next.bindings) { ReviveExactly(s.db, next); }
    case Commit(ticket) =>
      if ticket in s.pending && CommitBinding(s.db, canonicalize, s.pending[ticket].target,
                                              s.pending[ticket].chord).Success? {
        var p := s.pending[ticket];
        var next := CommitBinding(s.db, canonicalize, p.target, p.chord).value;
        if p.chord.Some? {
          CommitHasOwner(s.db, canonicalize, p.target, p.chord.value);
          var owner := OwnerOf(s.db, p.target.owner).value;
          SuitsOwner(s.db, p.target, owner);
          SetCommits(s.db, canonicalize, p.target, owner, p.chord.value);
          CommittedTable(s.db, next, p.target, owner, p.chord);
          CommitExclusiveExactly(s.db, next, p.target, owner, p.chord.value);
          assert Commits(s, canonicalize, move, p.target, owner, p.chord.value);
        } else {
          DeleteKeeps(s.db, next, p.target.id);
        }
      }
  }

  /** A move keeps chords free of overlap exactly when it is apart. */
  lemma MoveSpreads(s: Session, canonicalize: Canonicalizer, move: Move)
    requires NoOverlap(s.db)
    ensures NoOverlap(Act(s, canonicalize, move).db) <==> MoveApart(s, canonicalize, move)
  {
    hide UniqueSlots, WellNamed, Exclusive, NoOverlap, Committed, SetBinding, OwnerOf, Ready, Overlapping, OnlyLoses,
         RevivesApart, Conflict, TargetOf, ParseHotkey;
    match move
    case Check(_, _) =>
    case Change(next) =>
      if OnlyLoses(s.db.bindings, next.bindings) { ReviveExactly(s.db, next); }
    case Commit(ticket) =>
      if ticket in s.pending && CommitBinding(s.db, canonicalize, s.pending[ticket].target,
                                              s.pending[ticket].chord).Success? {
        var p := s.pending[ticket];
        var next := CommitBinding(s.db, canonicalize, p.target, p.chord).value;
        if p.chord.Some? {
          CommitHasOwner(s.db, canonicalize, p.target, p.chord.value);
          var owner := OwnerOf(s.db, p.target.owner).value;
          SetCommits(s.db, canonicalize, p.target, owner, p.chord.value);
          CommitNoOverlapExactly(s.db, next, p.target, owner, p.chord.value);
          assert Commits(s, canonicalize, move, p.target, owner, p.chord.value);
        } else {
          DeleteSpreads(s.db, next, p.target.id);
        }
      }
  }

  lemma DeleteSpreads(db: Db, next: Db, id: string)
    requires NoOverlap(db) && next == db.(bindings := db.bindings - {id})
    ensures NoOverlap(next)
  {
    hide Live;
    forall a, b, h | Answers(next, a, h) && Answers(next, b, h) && a != b
      ensures !ScopesMeet(next.bindings[a].scope, next.bindings[b].scope)
    {
      EligibleStays(db, next, a);
      EligibleStays(db, next, b);
      assert Answers(db, a, h) && Answers(db, b, h);
    }
  }

  lemma DeleteKeeps(db: Db, next: Db, id: string)
    requires TableOk(db) && Exclusive(db) && next == db.(bindings := db.bindings - {id})
    ensures TableOk(next) && Exclusive(next)
  {
    hide Live;
    forall a, b, h | Rings(next.bindings, a, h) && Answers(next, b, h) && a != b
      ensures next.bindings[a].owner.SoundOwner?
    {
      EligibleStays(db, next, b);
      assert Rings(db.bindings, a, h) && Answers(db, b, h);
    }
  }

  /**
   Exactly when interleaved commands keep chords exclusive. Over any run of separate checks and
   commits and changes of the library, at every point no control or tab chord is shared if and only if
   every commit would still have passed its check when it took place and no change revived a sound
   with the chord of a control or tab.
   */
  lemma {:induction false} InterleavedExactly(s: Session, canonicalize: Canonicalizer, moves: seq<Move>)
    requires SessionOk(s) && Exclusive(s.db) && NewIdsOk(moves)
    ensures AllExclusive(s, canonicalize, moves) <==> AllClear(s, canonicalize, moves)
    decreases |moves|
  {
    hide Act, SessionOk, Exclusive, MoveClear, TableOk;
    if moves != [] {
      var next := Act(s, canonicalize, moves[0]);
      if moves[0].Check? {
        CheckKeeps(s, canonicalize, moves[0]);
        assert MoveClear(s, canonicalize, moves[0]) by { CheckIsClear(s, canonicalize, moves[0]); }
      } else {
        MoveActs(s, canonicalize, moves[0]);
      }
      assert NewIdsOk(moves[1..]);
      if Exclusive(next.db) {
        InterleavedExactly(next, canonicalize, moves[1..]);
      }
    }
  }

  lemma CheckIsClear(s: Session, canonicalize: Canonicalizer, move: Move)
    requires move.Check?
    ensures MoveClear(s, canonicalize, move)
  {}

  /** And exactly when they keep chords free of overlap, whatever may be shared. */
  lemma {:induction false} InterleavedDisjointExactly(s: Session, canonicalize: Canonicalizer, moves: seq<Move>)
    requires NoOverlap(s.db)
    ensures AllDisjoint(s, canonicalize, moves) <==> AllApart(s, canonicalize, moves)
    decreases |moves|
  {
    hide Act, NoOverlap, MoveApart;
    if moves != [] {
      MoveSpreads(s, canonicalize, moves[0]);
      if NoOverlap(Act(s, canonicalize, moves[0]).db) {
        InterleavedDisjointExactly(Act(s, canonicalize, moves[0]), canonicalize, moves[1..]);
      }
    }
  }

  /** In particular a commit right after its own check is clear. */
  lemma CheckedIsClear(db: Db, target: Target, owner: Owner, chord: string)
    requires Suits(target, owner) && !Conflict(db, target.id, Some(chord), target.mayShare, target.scope)
    ensures Clear(db, target, owner, chord)
  {
    hide Live;
    if owner.SoundOwner? && !target.mayShare {
      forall b | b in db.bindings && Conflicting(db, b, target.id, chord, true, target.scope)
        ensures Conflicting(db, b, target.id, chord, false, target.scope) {}
    }
  }

  // ---- a chord given away while its sound was not live -------------------------------------------------

  /**
   A sound that is not live does not hold its chord: a control may take it. Once the sound is put on a
   manual tab it is live again and both answer.
   */
  lemma RevivedShares(db: Db, canonicalize: Canonicalizer, b: string, tab: nat, action: string, chord: string)
    requires Canonical(canonicalize) && canonicalize(chord) == Some(chord) && action in CONTROL_ACTIONS
    requires TableOk(db) && Rings(db.bindings, b, chord) && db.bindings[b].owner.SoundOwner?
    requires forall a :: Rings(db.bindings, a, chord) ==> a == b
    requires var s := db.bindings[b].owner.sound; s in db.sounds && !Live(db, s)
    ensures Execute(db, canonicalize, SetControl(action, Some(chord))).Success?
    ensures var s := db.bindings[b].owner.sound;
            var taken := Execute(db, canonicalize, SetControl(action, Some(chord))).value;
            var revived := taken.(memberships := taken.memberships[Member(tab, s) := 0]);
      Live(revived, s) && !RevivesAlone(taken, revived) && !Exclusive(revived)
  {
    hide Live, UniqueSlots, SetBinding, SameSlot, Clashes, Exclusive, Execute, Committed, WellNamed, RevivesAlone;
    var s := db.bindings[b].owner.sound;
    var target := Target(ControlId(action), OfControl(action), None, false);
    ControlTakes(db, canonicalize, action, chord);
    assert Execute(db, canonicalize, SetControl(action, Some(chord))).value.sounds == db.sounds by {
      CommittedRow(db, Execute(db, canonicalize, SetControl(action, Some(chord))).value, target, ControlOwner(action),
                   chord);
    }
    var taken := Execute(db, canonicalize, SetControl(action, Some(chord))).value;
    LiveIgnoresBindings(db, taken.bindings, s);
    var revived := taken.(memberships := taken.memberships[Member(tab, s) := 0]);
    assert Live(revived, s) by { LivesOnTab(revived, tab, s); }
    CommittedRow(db, taken, target, ControlOwner(action), chord);
    KeepsOther(db, taken, target, ControlOwner(action), chord, b);
    assert !RevivesAlone(taken, revived) by { NotAlone(taken, revived, target.id, b, chord); }
    assert !Exclusive(revived) by { BothRing(revived, target.id, b, chord); }
  }

  lemma ControlTakes(db: Db, canonicalize: Canonicalizer, action: string, chord: string)
    requires Canonical(canonicalize) && canonicalize(chord) == Some(chord) && action in CONTROL_ACTIONS
    requires TableOk(db) && forall b :: b in db.bindings ==> !Answers(db, b, chord)
    ensures Execute(db, canonicalize, SetControl(action, Some(chord))).Success?
    ensures Committed(db, Execute(db, canonicalize, SetControl(action, Some(chord))).value,
                      Target(ControlId(action), OfControl(action), None, false), ControlOwner(action), Some(chord))
  {
    hide Live, UniqueSlots, SetBinding, SameSlot, Clashes, Committed;
    var target := Target(ControlId(action), OfControl(action), None, false);
    TargetNotBlank(db, SetControl(action, None));
    NotBlankAction(action);
    assert !Conflict(db, target.id, Some(chord), false, None);
    SetAccepts(db, canonicalize, Record(target.id, target.owner, None, chord, Some(chord), None));
    SetCommits(db, canonicalize, target, ControlOwner(action), chord);
  }

  lemma CommittedRow(db: Db, next: Db, target: Target, owner: Owner, chord: string)
    requires Committed(db, next, target, owner, Some(chord))
    ensures next == db.(bindings := next.bindings) && target.id in next.bindings
    ensures next.bindings[target.id] == Binding(owner, target.scope, chord, Some(chord), None)
  {}

  lemma LivesOnTab(db: Db, tab: nat, s: nat)
    requires s in db.sounds && Member(tab, s) in db.memberships
    ensures Live(db, s)
  {}

  lemma BothRing(db: Db, a: string, b: string, chord: string)
    requires Rings(db.bindings, a, chord) && !db.bindings[a].owner.SoundOwner? && Answers(db, b, chord) && a != b
    ensures !Exclusive(db)
  {}

  lemma NotAlone(db: Db, next: Db, a: string, b: string, chord: string)
    requires Revives(db, next, b, chord) && Rings(next.bindings, a, chord) && a != b
    requires !next.bindings[a].owner.SoundOwner?
    ensures !RevivesAlone(db, next)
  {}

  /** A control's commit leaves a sound's row alone. */
  lemma KeepsOther(db: Db, next: Db, target: Target, owner: Owner, chord: string, b: string)
    requires WellNamed(db.bindings) && Committed(db, next, target, owner, Some(chord)) && owner.ControlOwner?
    requires b in db.bindings && db.bindings[b].owner.SoundOwner? && target.id == ControlId(owner.action)
    ensures b != target.id && b in next.bindings && next.bindings[b] == db.bindings[b]
  {
    assert Reserved(target.id);
  }
}
