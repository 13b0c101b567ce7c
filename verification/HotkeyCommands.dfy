/**
 The three hotkey commands told by what was asked: whose hotkey, in which scope, with which chord.
 A command works on the row its owner has there, and only the rows of others can stand in its way.
 */
module HotkeyCommands {
  import opened Wrappers
  import opened Ordering
  import opened Tables
  import opened FolderScan
  import opened Hotkeys

  /** The row is the one the command is about: of that sound in that scope, of that control, of that tab. */
  ghost predicate Owns(db: Db, command: Command, row: Binding) {
    match command
    case SetSound(publicId, _, _, scope, _) =>
      && row.owner.SoundOwner? && row.owner.sound in db.sounds && db.sounds[row.owner.sound].publicId == publicId
      && row.scope == scope
    case SetControl(action, _) => row.owner == ControlOwner(action)
    case SetTab(tab, _) => row.owner == TabOwner(tab)
  }

  ghost function ScopeOf(command: Command): Option<string> {
    if command.SetSound? then command.scope else None
  }

  /** The id of a row the command makes. */
  ghost function MadeId(command: Command): string {
    match command
    case SetSound(_, _, _, _, newId) => newId
    case SetControl(action, _) => "control:" + action
    case SetTab(tab, _) => "tab-hotkey:" + tab
  }

  /** Somebody else's row answers the chord in a scope that meets the command's, and sharing does not excuse it. */
  ghost predicate InUse(db: Db, command: Command, chord: string) {
    exists b :: b in db.bindings && !Owns(db, command, db.bindings[b])
      && db.bindings[b].normalized == Some(chord)
      && (db.bindings[b].owner.SoundOwner? ==> Live(db, db.bindings[b].owner.sound))
      && (command.SetSound? && command.multi ==> !db.bindings[b].owner.SoundOwner?)
      && (db.bindings[b].scope.None? || ScopeOf(command).None? || db.bindings[b].scope == ScopeOf(command))
  }

  /** The command names something there is: one of the eight controls, a tab, or for a chord to be set a sound. */
  ghost predicate Named(db: Db, command: Command) {
    match command
    case SetSound(publicId, hotkey, _, _, _) =>
      hotkey.Some? ==> exists s :: s in db.sounds && db.sounds[s].publicId == publicId
    case SetControl(action, _) =>
      action in {"play_pause", "stop_all", "previous_sound", "next_sound", "mute_headphones", "mute_real_mic",
                 "cycle_play_mode", "cycle_group_mode"}
    case SetTab(tab, _) => exists c :: c in tab && !IsWhite(c)
  }

  // ---- which row ------------------------------------------------------------------------------------

  lemma OneRow(db: Db, command: Command, a: string, b: string)
    requires TableOk(db) && SoundsOk(db.sounds) && a in db.bindings && b in db.bindings
    requires Owns(db, command, db.bindings[a]) && Owns(db, command, db.bindings[b])
    ensures a == b
  {}

  lemma ExistingIs(db: Db, publicId: string, scope: Option<string>, newId: string, b: string)
    requires b in ExistingRows(db, publicId, scope)
    ensures SoundBindingId(db, publicId, scope, newId) in ExistingRows(db, publicId, scope)
  {
    hide Sort;
    var ids := ExistingRows(db, publicId, scope);
    assert Distinct(IdKeys(ids));
    SortElements(IdKeys(ids));
    assert b in Elements(Sort(IdKeys(ids))) && Sort(IdKeys(ids))[0] in Elements(Sort(IdKeys(ids)));
  }

  /** The command works on the row its owner has, and on a row of its own making if there is none. */
  lemma TargetIsOwn(db: Db, command: Command)
    requires TableOk(db) && SoundsOk(db.sounds) && TargetOf(db, command).Success?
    ensures var target := TargetOf(db, command).value;
      && target.scope == ScopeOf(command)
      && (target.mayShare <==> command.SetSound? && command.multi)
      && (forall b :: b in db.bindings && Owns(db, command, db.bindings[b]) ==> b == target.id)
      && ((forall b :: b in db.bindings ==> !Owns(db, command, db.bindings[b])) ==> target.id == MadeId(command))
      && (target.id in db.bindings && !(command.SetSound? && target.id == command.newId) ==>
            Owns(db, command, db.bindings[target.id]))
  {
    hide UniqueSlots, SoundBindingId;
    var target := TargetOf(db, command).value;
    forall b | b in db.bindings && Owns(db, command, db.bindings[b]) ensures b == target.id {
      if command.SetSound? {
        ExistingIs(db, command.publicId, command.scope, command.newId, b);
        OneRow(db, command, b, target.id);
      }
    }
    if command.SetControl? { ControlRow(db, command.action); }
    if command.SetTab? { TabRow(db, command.tab); }
  }

  lemma ControlRow(db: Db, action: string)
    requires TableOk(db)
    ensures ControlId(action) in db.bindings ==> db.bindings[ControlId(action)].owner == ControlOwner(action)
  {
    hide UniqueSlots;
    assert forall x :: ControlId(x)[0] == 'c' && ControlId(x)[|CONTROL_PREFIX|..] == x;
    assert forall x :: TabId(x)[0] == 't';
  }

  lemma TabRow(db: Db, tab: string)
    requires TableOk(db)
    ensures TabId(tab) in db.bindings ==> db.bindings[TabId(tab)].owner == TabOwner(tab)
  {
    hide UniqueSlots;
    assert forall x :: TabId(x)[0] == 't' && TabId(x)[|TAB_PREFIX|..] == x;
    assert forall x :: ControlId(x)[0] == 'c';
  }

  // ---- when it is refused ---------------------------------------------------------------------------

  /** A check finds a conflict exactly when the chord is in use by a row that is not the command's own. */
  lemma ConflictIsUse(db: Db, command: Command, chord: string)
    requires TableOk(db) && SoundsOk(db.sounds) && FreshFor(db, command) && TargetOf(db, command).Success?
    ensures var target := TargetOf(db, command).value;
      Conflict(db, target.id, Some(chord), target.mayShare, target.scope) <==> InUse(db, command, chord)
  {
    hide TableOk, SoundsOk, TargetOf, Owns, Live;
    TargetIsOwn(db, command);
    var target := TargetOf(db, command).value;
    forall b | b in db.bindings ensures b == target.id <==> Owns(db, command, db.bindings[b]) {}
  }

  lemma NamedTarget(db: Db, command: Command)
    requires command.hotkey.Some? || !command.SetSound?
    ensures Named(db, command) <==>
      TargetOf(db, command).Success? && OwnerOf(db, TargetOf(db, command).value.owner).Some?
  {
    hide SoundBindingId;
    match command {
      case SetSound(publicId, _, _, _, _) =>
        assert SoundNamed(db.sounds, publicId).Some? <==> SoundIdsNamed(db.sounds, publicId) != {};
        if s :| s in db.sounds && db.sounds[s].publicId == publicId {
          assert s in SoundIdsNamed(db.sounds, publicId);
        }
      case SetControl(action, _) =>
        if action in CONTROL_ACTIONS { NotBlankAction(action); }
      case SetTab(tab, _) =>
    }
  }

  /**
   Exactly when a command succeeds: it names something there is, its chord parses, and no row but its
   own has the chord in use. Setting the chord it has already is therefore never refused by itself.
   */
  lemma CommandSucceedsExactly(db: Db, canonicalize: Canonicalizer, command: Command)
    requires Canonical(canonicalize) && TableOk(db) && SoundsOk(db.sounds) && FreshFor(db, command)
    ensures Execute(db, canonicalize, command).Success? <==>
      && Named(db, command)
      && (command.hotkey.Some? ==>
            && canonicalize(command.hotkey.value).Some?
            && !InUse(db, command, canonicalize(command.hotkey.value).value))
    ensures Named(db, command) && command.hotkey.Some? && canonicalize(command.hotkey.value).Some?
      && InUse(db, command, canonicalize(command.hotkey.value).value)
      ==> Execute(db, canonicalize, command) == Failure(Taken)
  {
    hide Canonical, UniqueSlots, WellNamed, SoundsOk, InUse, Named, Conflicting, FreshFor, TargetOf, CommitBinding;
    ExecuteSucceedsExactly(db, canonicalize, command);
    if command.hotkey.Some? || !command.SetSound? {
      NamedTarget(db, command);
    } else {
      AnySound(db, command);
    }
    if TargetOf(db, command).Success? && command.hotkey.Some? && canonicalize(command.hotkey.value).Some? {
      ConflictIsUse(db, command, canonicalize(command.hotkey.value).value);
    }
    OwnerNeeded(db, command);
  }

  /** Clearing a sound's hotkey needs no sound. */
  lemma AnySound(db: Db, command: Command)
    requires command.SetSound? && command.hotkey.None?
    ensures Named(db, command) && TargetOf(db, command).Success?
  {}

  lemma OwnerNeeded(db: Db, command: Command)
    ensures TargetOf(db, command).Success? && !command.SetSound? ==>
      OwnerOf(db, TargetOf(db, command).value.owner).Some?
  {
    if command.SetControl? && command.action in CONTROL_ACTIONS { NotBlankAction(command.action); }
  }

  // ---- the store's own checks --------------------------------------------------------------------------

  /** White space as trimming knows it: 25 characters. */
  lemma WhiteExactly(c: char)
    ensures var white := {9, 10, 11, 12, 13, 32, 133, 160, 5760, 8192, 8193, 8194, 8195, 8196, 8197, 8198, 8199, 8200,
                          8201, 8202, 8232, 8233, 8239, 8287, 12288};
      IsWhite(c) <==> c as int in white
  {}

  ghost predicate HasText(s: string) {
    exists c :: c in s && !IsWhite(c)
  }

  /** Whom a record names is there. */
  ghost predicate HasOwner(db: Db, owner: RecordOwner) {
    match owner
    case OfSound(publicId) => exists s :: s in db.sounds && db.sounds[s].publicId == publicId
    case OfControl(action) => HasText(action)
    case OfTab(tab) => HasText(tab)
  }

  /**
   What the store takes: an id, an accelerator and an owner; a chord only as the accelerator's canonical
   spelling; without a chord a reason; no scope for a tab's hotkey.
   */
  lemma SetBindingExactly(db: Db, canonicalize: Canonicalizer, record: Record)
    ensures SetBinding(db, canonicalize, record).Success? <==>
      && HasText(record.bindingId) && HasText(record.accelerator) && HasOwner(db, record.owner)
      && (match record.normalized
          case Some(chord) => HasText(chord) && canonicalize(record.accelerator) == Some(chord)
          case None => record.issue.Some? && record.issue.value != "")
      && (record.owner.OfTab? ==> record.scope.None?)
    ensures SetBinding(db, canonicalize, record).Success? ==>
      var next := SetBinding(db, canonicalize, record).value;
      && next == db.(bindings := next.bindings) && record.bindingId in next.bindings
      && var row := next.bindings[record.bindingId];
      && row.scope == record.scope && row.accelerator == record.accelerator && row.normalized == record.normalized
      && row.issue == (if record.normalized.Some? then None else record.issue)
      && (match record.owner
          case OfSound(publicId) =>
            row.owner.SoundOwner? && row.owner.sound in db.sounds && db.sounds[row.owner.sound].publicId == publicId
          case OfControl(action) => row.owner == ControlOwner(action)
          case OfTab(tab) => row.owner == TabOwner(tab))
      && (forall b :: b in next.bindings && b != record.bindingId ==>
            b in db.bindings && next.bindings[b] == db.bindings[b])
      && (forall b :: b in db.bindings && b != record.bindingId ==>
            (b in next.bindings <==>
               !(db.bindings[b].owner == row.owner
                 && (row.owner.SoundOwner? ==> ScopeKey(db.bindings[b].scope) == ScopeKey(record.scope)))))
  {
    hide IsWhite, Clashes;
    SetNeverClashes(db, canonicalize, record);
    if record.owner.OfSound? {
      if s :| s in db.sounds && db.sounds[s].publicId == record.owner.publicId {
        assert s in SoundIdsNamed(db.sounds, record.owner.publicId);
      }
    }
  }

  // ---- what it does -----------------------------------------------------------------------------------

  /** Without a chord a command takes its owner's row out of the table, and nothing else. */
  lemma CommandClears(db: Db, canonicalize: Canonicalizer, command: Command)
    requires TableOk(db) && SoundsOk(db.sounds) && FreshFor(db, command)
    requires command.hotkey.None? && Execute(db, canonicalize, command).Success?
    ensures var next := Execute(db, canonicalize, command).value;
      && next == db.(bindings := next.bindings)
      && (forall b :: b in next.bindings <==> b in db.bindings && !Owns(db, command, db.bindings[b]))
      && (forall b :: b in next.bindings ==> next.bindings[b] == db.bindings[b])
  {
    hide UniqueSlots, WellNamed, SoundsOk, TargetOf, Owns, Conflict;
    TargetIsOwn(db, command);
  }

  /**
   With a chord a command leaves its owner exactly one row in that scope: with exactly the command's
   scope and the chord's canonical spelling, under the id of the row there was, or the new one. Rows of
   another owner, or of the sound in another scope, are as they were.
   */
  lemma CommandSets(db: Db, canonicalize: Canonicalizer, command: Command) returns (b: string)
    requires TableOk(db) && SoundsOk(db.sounds) && FreshFor(db, command)
    requires command.hotkey.Some? && Execute(db, canonicalize, command).Success?
    ensures canonicalize(command.hotkey.value).Some?
    ensures var next := Execute(db, canonicalize, command).value;
            var chord := canonicalize(command.hotkey.value).value;
      && next == db.(bindings := next.bindings)
      && b in next.bindings && Owns(next, command, next.bindings[b])
      && next.bindings[b] == Binding(next.bindings[b].owner, ScopeOf(command), chord, Some(chord), None)
      && (forall a :: a in next.bindings && Owns(next, command, next.bindings[a]) ==> a == b)
      && (forall a :: a in db.bindings && Owns(db, command, db.bindings[a]) ==> a == b)
      && ((forall a :: a in db.bindings ==> !Owns(db, command, db.bindings[a])) ==> b == MadeId(command))
      && (forall a :: a in next.bindings && a != b ==> a in db.bindings && next.bindings[a] == db.bindings[a])
      && (forall a :: a in db.bindings && a !in next.bindings ==>
            && db.bindings[a].owner == next.bindings[b].owner
            && ScopeKey(db.bindings[a].scope) == ScopeKey(ScopeOf(command)))
  {
    hide UniqueSlots, WellNamed, SoundsOk, TargetOf, Owns, Conflict, Execute, Committed;
    var owner := ExecuteWrites(db, canonicalize, command);
    TargetIsOwn(db, command);
    b := TargetOf(db, command).value.id;
    var next := Execute(db, canonicalize, command).value;
    var chord := canonicalize(command.hotkey.value).value;
    CommittedRows(db, next, TargetOf(db, command).value, owner, chord);
    WrittenOwns(db, canonicalize, command, owner);
    forall a | a in next.bindings && Owns(next, command, next.bindings[a]) ensures a == b {
      if a != b { SameOwns(db, next, command, db.bindings[a]); }
    }
  }

  lemma CommittedRows(db: Db, next: Db, target: Target, owner: Owner, chord: string)
    requires TableOk(db) && Suits(target, owner) && Committed(db, next, target, owner, Some(chord))
    ensures next == db.(bindings := next.bindings)
    ensures target.id in next.bindings
    ensures next.bindings[target.id] == Binding(owner, target.scope, chord, Some(chord), None)
    ensures forall a :: a in next.bindings && a != target.id ==> a in db.bindings && next.bindings[a] == db.bindings[a]
    ensures forall a :: a in db.bindings && a !in next.bindings ==>
      db.bindings[a].owner == owner && ScopeKey(db.bindings[a].scope) == ScopeKey(target.scope)
  {
    hide UniqueSlots;
  }

  lemma SameOwns(db: Db, next: Db, command: Command, row: Binding)
    requires next.sounds == db.sounds
    ensures Owns(next, command, row) <==> Owns(db, command, row)
  {}

  /** The row that is written belongs to whom the command names. */
  lemma WrittenOwns(db: Db, canonicalize: Canonicalizer, command: Command, owner: Owner)
    requires command.hotkey.Some? && Execute(db, canonicalize, command).Success?
    requires TargetOf(db, command).Success?
    requires Committed(db, Execute(db, canonicalize, command).value, TargetOf(db, command).value, owner,
      canonicalize(command.hotkey.value))
    requires canonicalize(command.hotkey.value).Some?
    ensures var next, target := Execute(db, canonicalize, command).value, TargetOf(db, command).value;
      target.id in next.bindings && Owns(next, command, next.bindings[target.id])
  {
    hide SoundBindingId, Conflict, SameSlot, Clashes;
  }
}
