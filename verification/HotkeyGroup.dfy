/**
 What a press plays. The store lists the live sounds bound to the pressed chord; the selection
 picks one of them, or says why it picks none.
 */
module HotkeyGroup {
  import opened Wrappers
  import opened Ordering
  import opened Tables
  import opened Hotkeys

  datatype GroupMember = GroupMember(bindingId: string, soundId: string, scope: Option<string>)

  datatype Toggles = Toggles(tabHotkeys: bool, multiSound: bool)

  datatype GroupMode = Same | Next | Random

  datatype InertReason = NoMembers | OutOfScope | Ambiguous | MultiSoundDisabled

  datatype Selection = Play(index: nat) | Inert(reason: InertReason)

  /** With tab hotkeys on, only unscoped bindings and those of the tab on show can answer. */
  predicate InScope(member: GroupMember, activeScope: string, tabHotkeys: bool) {
    tabHotkeys ==> member.scope.None? || member.scope == Some(activeScope)
  }

  /** The indices of the first `n` members that can answer, in order. */
  function Candidates(members: seq<GroupMember>, activeScope: string, tabHotkeys: bool, n: nat): (r: seq<nat>)
    requires n <= |members|
    ensures forall k :: 0 <= k < |r| ==> r[k] < n && InScope(members[r[k]], activeScope, tabHotkeys)
    ensures forall i :: 0 <= i < n && InScope(members[i], activeScope, tabHotkeys) ==> i in r
    ensures forall j, k :: 0 <= j < k < |r| ==> r[j] < r[k]
  {
    if n == 0 then []
    else
      var prior := Candidates(members, activeScope, tabHotkeys, n - 1);
      if InScope(members[n - 1], activeScope, tabHotkeys) then prior + [n - 1] else prior
  }

  /** The place of the candidate that was played last. */
  function PlaceOf(members: seq<GroupMember>, candidates: seq<nat>, last: Option<string>): (p: Option<nat>)
    requires forall k :: 0 <= k < |candidates| ==> candidates[k] < |members|
    ensures p.Some? ==> p.value < |candidates| && last == Some(members[candidates[p.value]].soundId)
    ensures p.None? ==> forall k :: 0 <= k < |candidates| ==> last != Some(members[candidates[k]].soundId)
    ensures p.Some? ==> forall k :: 0 <= k < p.value ==> last != Some(members[candidates[k]].soundId)
    decreases |candidates|
  {
    if candidates == [] then None
    else if last == Some(members[candidates[0]].soundId) then Some(0)
    else match PlaceOf(members, candidates[1..], last)
         case None => assert forall k :: 1 <= k < |candidates| ==> candidates[k] == candidates[1..][k - 1]; None
         case Some(p) =>
           assert forall k :: 1 <= k < |candidates| ==> candidates[k] == candidates[1..][k - 1];
           Some(p + 1)
  }

  /** Some candidate's scope differs from the first one's. */
  predicate MixedScopes(members: seq<GroupMember>, candidates: seq<nat>)
    requires forall k :: 0 <= k < |candidates| ==> candidates[k] < |members|
  {
    exists k :: 0 <= k < |candidates| && members[candidates[k]].scope != members[candidates[0]].scope
  }

  function SelectFromGroup(members: seq<GroupMember>, activeScope: string, toggles: Toggles, mode: GroupMode,
                           last: Option<string>, entropy: nat): (r: Selection)
    ensures r.Play? ==> r.index < |members| && InScope(members[r.index], activeScope, toggles.tabHotkeys)
  {
    if members == [] then Inert(NoMembers)
    else
      var candidates := Candidates(members, activeScope, toggles.tabHotkeys, |members|);
      if candidates == [] then Inert(OutOfScope)
      else
        var first := candidates[0];
        if MixedScopes(members, candidates) then Inert(Ambiguous)
        else if |candidates| == 1 then Play(first)
        else if !toggles.multiSound then Inert(MultiSoundDisabled)
        else Play(candidates[Position(members, candidates, mode, last, entropy)])
  }

  /** The place among several candidates. */
  function Position(members: seq<GroupMember>, candidates: seq<nat>, mode: GroupMode, last: Option<string>,
                    entropy: nat): (position: nat)
    requires |candidates| > 0 && forall k :: 0 <= k < |candidates| ==> candidates[k] < |members|
    ensures position < |candidates|
  {
    var previous := PlaceOf(members, candidates, last);
    match mode
    case Same => (match previous case None => 0 case Some(p) => p)
    case Next => (match previous case None => 0 case Some(p) => (p + 1) % |candidates|)
    case Random => entropy % |candidates|
  }

  // ---- every answer ------------------------------------------------------------------------------------

  ghost predicate CanAnswer(members: seq<GroupMember>, i: nat, activeScope: string, tabHotkeys: bool) {
    i < |members| && (tabHotkeys ==> members[i].scope == None || members[i].scope == Some(activeScope))
  }

  /** Two members that can answer belong to different scopes. */
  ghost predicate Mixed(members: seq<GroupMember>, activeScope: string, tabHotkeys: bool) {
    exists i: nat, j: nat :: CanAnswer(members, i, activeScope, tabHotkeys)
      && CanAnswer(members, j, activeScope, tabHotkeys) && members[i].scope != members[j].scope
  }

  ghost predicate Several(members: seq<GroupMember>, activeScope: string, tabHotkeys: bool) {
    exists i: nat, j: nat :: i < j && CanAnswer(members, i, activeScope, tabHotkeys)
      && CanAnswer(members, j, activeScope, tabHotkeys)
  }

  /** `p` is the place among the candidates that was played last. */
  ghost predicate PlayedLast(members: seq<GroupMember>, candidates: seq<nat>, last: Option<string>, p: nat) {
    && p < |candidates| && candidates[p] < |members| && last == Some(members[candidates[p]].soundId)
    && forall k :: 0 <= k < p && candidates[k] < |members| ==> last != Some(members[candidates[k]].soundId)
  }

  lemma CandidatesAre(members: seq<GroupMember>, activeScope: string, tabHotkeys: bool)
    ensures var candidates := Candidates(members, activeScope, tabHotkeys, |members|);
      && (forall i: nat :: i in candidates <==> CanAnswer(members, i, activeScope, tabHotkeys))
      && (forall k :: 0 <= k < |candidates| ==> CanAnswer(members, candidates[k], activeScope, tabHotkeys))
  {
    hide Candidates;
  }

  lemma SomeCandidate(members: seq<GroupMember>, activeScope: string, tabHotkeys: bool)
    ensures Candidates(members, activeScope, tabHotkeys, |members|) == []
       <==> forall i: nat :: !CanAnswer(members, i, activeScope, tabHotkeys)
  {
    hide Candidates, CanAnswer;
    CandidatesAre(members, activeScope, tabHotkeys);
    var candidates := Candidates(members, activeScope, tabHotkeys, |members|);
    if candidates != [] { assert candidates[0] in candidates; }
  }

  lemma SeveralIs(members: seq<GroupMember>, activeScope: string, tabHotkeys: bool)
    ensures |Candidates(members, activeScope, tabHotkeys, |members|)| > 1 <==> Several(members, activeScope, tabHotkeys)
  {
    hide Candidates, CanAnswer;
    CandidatesAre(members, activeScope, tabHotkeys);
    var candidates := Candidates(members, activeScope, tabHotkeys, |members|);
    if Several(members, activeScope, tabHotkeys) {
      var i: nat, j: nat :| i < j && CanAnswer(members, i, activeScope, tabHotkeys)
        && CanAnswer(members, j, activeScope, tabHotkeys);
      assert i in candidates && j in candidates;
    } else if |candidates| > 1 {
      assert candidates[0] < candidates[1];
    }
  }

  lemma MixedIs(members: seq<GroupMember>, activeScope: string, tabHotkeys: bool)
    ensures MixedScopes(members, Candidates(members, activeScope, tabHotkeys, |members|))
       <==> Mixed(members, activeScope, tabHotkeys)
  {
    hide Candidates, CanAnswer;
    CandidatesAre(members, activeScope, tabHotkeys);
    var candidates := Candidates(members, activeScope, tabHotkeys, |members|);
    assert forall k :: 0 <= k < |candidates| ==> candidates[k] < |members|;
    if Mixed(members, activeScope, tabHotkeys) {
      var i: nat, j: nat :| CanAnswer(members, i, activeScope, tabHotkeys)
        && CanAnswer(members, j, activeScope, tabHotkeys) && members[i].scope != members[j].scope;
      assert i in candidates && j in candidates;
      var a :| 0 <= a < |candidates| && candidates[a] == i;
      var b :| 0 <= b < |candidates| && candidates[b] == j;
    }
  }

  /** The place a mode chooses among several candidates. */
  ghost predicate Chosen(members: seq<GroupMember>, candidates: seq<nat>, mode: GroupMode, last: Option<string>,
                         entropy: nat, p: nat)
  {
    var none := forall k: nat :: !PlayedLast(members, candidates, last, k);
    && p < |candidates|
    && match mode
       case Random => p == entropy % |candidates|
       case Same => PlayedLast(members, candidates, last, p) || (none && p == 0)
       case Next => (none && p == 0) || exists k: nat :: PlayedLast(members, candidates, last, k)
                                          && p == Around(k + 1, |candidates|)
  }

  lemma PositionChosen(members: seq<GroupMember>, candidates: seq<nat>, mode: GroupMode, last: Option<string>,
                       entropy: nat)
    requires |candidates| > 0 && forall k :: 0 <= k < |candidates| ==> candidates[k] < |members|
    ensures Chosen(members, candidates, mode, last, entropy, Position(members, candidates, mode, last, entropy))
  {
    hide PlaceOf;
    var previous := PlaceOf(members, candidates, last);
    if previous.Some? {
      assert PlayedLast(members, candidates, last, previous.value);
      WrapIs(previous.value, |candidates|);
    }
  }

  /**
   Every answer to a press, and when it is given. Of several candidates in one scope, Random takes the
   one at the place the entropy names, Same the one played last or the first, Next the one after it.
   */
  lemma SelectExactly(members: seq<GroupMember>, activeScope: string, toggles: Toggles, mode: GroupMode,
                      last: Option<string>, entropy: nat)
    ensures var r := SelectFromGroup(members, activeScope, toggles, mode, last, entropy);
            var none := forall i: nat :: !CanAnswer(members, i, activeScope, toggles.tabHotkeys);
            var mixed := Mixed(members, activeScope, toggles.tabHotkeys);
            var several := Several(members, activeScope, toggles.tabHotkeys);
      && (r == Inert(NoMembers) <==> members == [])
      && (r == Inert(OutOfScope) <==> members != [] && none)
      && (r == Inert(Ambiguous) <==> members != [] && !none && mixed)
      && (r == Inert(MultiSoundDisabled) <==> members != [] && !none && !mixed && several && !toggles.multiSound)
      && (r.Play? ==> CanAnswer(members, r.index, activeScope, toggles.tabHotkeys))
      && (r.Play? && several ==> PlaysChosen(members, activeScope, toggles, mode, last, entropy, r.index))
  {
    hide Candidates, MixedScopes, Mixed, Several, CanAnswer, Position, Chosen, PlaysChosen;
    var candidates := Candidates(members, activeScope, toggles.tabHotkeys, |members|);
    CandidatesAre(members, activeScope, toggles.tabHotkeys);
    MixedIs(members, activeScope, toggles.tabHotkeys);
    SeveralIs(members, activeScope, toggles.tabHotkeys);
    SomeCandidate(members, activeScope, toggles.tabHotkeys);
    if candidates != [] && Several(members, activeScope, toggles.tabHotkeys) {
      PositionChosen(members, candidates, mode, last, entropy);
      assert PlaysChosen(members, activeScope, toggles, mode, last, entropy,
                         candidates[Position(members, candidates, mode, last, entropy)]) by {
        PlaysIt(members, activeScope, toggles, mode, last, entropy);
      }
    }
  }

  ghost predicate PlaysChosen(members: seq<GroupMember>, activeScope: string, toggles: Toggles, mode: GroupMode,
                              last: Option<string>, entropy: nat, index: nat)
  {
    var candidates := Candidates(members, activeScope, toggles.tabHotkeys, |members|);
    exists p :: 0 <= p < |candidates| && candidates[p] == index && Chosen(members, candidates, mode, last, entropy, p)
  }

  lemma PlaysIt(members: seq<GroupMember>, activeScope: string, toggles: Toggles, mode: GroupMode,
                last: Option<string>, entropy: nat)
    requires |Candidates(members, activeScope, toggles.tabHotkeys, |members|)| > 0
    ensures var candidates := Candidates(members, activeScope, toggles.tabHotkeys, |members|);
      PlaysChosen(members, activeScope, toggles, mode, last, entropy,
                  candidates[Position(members, candidates, mode, last, entropy)])
  {
    hide Candidates, Chosen, Position;
    PositionChosen(members, Candidates(members, activeScope, toggles.tabHotkeys, |members|), mode, last, entropy);
  }

  // ---- the store's group -----------------------------------------------------------------------------

  /** The live sound bindings that answer the pressed binding's chord. */
  predicate Grouped(db: Db, pressed: string, b: string) {
    && pressed in db.bindings && db.bindings[pressed].normalized.Some?
    && b in db.bindings && db.bindings[b].normalized == db.bindings[pressed].normalized
    && db.bindings[b].owner.SoundOwner? && Live(db, db.bindings[b].owner.sound)
  }

  function MemberOf(db: Db, b: string): GroupMember
    requires b in db.bindings && db.bindings[b].owner.SoundOwner? && db.bindings[b].owner.sound in db.sounds
  {
    GroupMember(b, db.sounds[db.bindings[b].owner.sound].publicId, db.bindings[b].scope)
  }

  /**
   A result of the group query: every grouped binding once, sounds in (position, id) order. The
   query does not say how two bindings of one sound are ordered, so neither does this.
   */
  ghost predicate IsGroup(db: Db, pressed: string, members: seq<GroupMember>) {
    && (forall i :: 0 <= i < |members| ==>
          Grouped(db, pressed, members[i].bindingId) && members[i] == MemberOf(db, members[i].bindingId))
    && (forall b :: Grouped(db, pressed, b) ==> exists i :: 0 <= i < |members| && members[i].bindingId == b)
    && (forall i, j :: 0 <= i < j < |members| ==> members[i].bindingId != members[j].bindingId)
    && (forall i, j :: 0 <= i < j < |members| ==>
          !Less(SoundKey(db.sounds, db.bindings[members[j].bindingId].owner.sound),
                SoundKey(db.sounds, db.bindings[members[i].bindingId].owner.sound)))
  }

  lemma GroupScopes(db: Db, pressed: string, members: seq<GroupMember>, i: nat, j: nat)
    requires NoOverlap(db) && IsGroup(db, pressed, members)
    requires i < |members| && j < |members| && i != j
    ensures !ScopesMeet(members[i].scope, members[j].scope)
  {
    assert Grouped(db, pressed, members[i].bindingId) && Grouped(db, pressed, members[j].bindingId);
    var chord := db.bindings[pressed].normalized.value;
    assert Answers(db, members[i].bindingId, chord) && Answers(db, members[j].bindingId, chord);
    assert members[i].bindingId != members[j].bindingId;
  }

  /**
   With sharing off throughout, every run of commands leaves chords free of overlap, and then a
   press with tab hotkeys on plays the one binding in scope, whatever the other settings; it is
   never refused as ambiguous or as needing several sounds per hotkey.
   */
  lemma UnsharedPress(db: Db, pressed: string, members: seq<GroupMember>, activeScope: string, multiSound: bool,
                      mode: GroupMode, last: Option<string>, entropy: nat)
    requires NoOverlap(db) && IsGroup(db, pressed, members)
    ensures match SelectFromGroup(members, activeScope, Toggles(true, multiSound), mode, last, entropy)
      case Play(i) => forall j :: 0 <= j < |members| && InScope(members[j], activeScope, true) ==> j == i
      case Inert(reason) =>
        && (reason == NoMembers || reason == OutOfScope)
        && (reason == NoMembers <==> members == [])
        && forall j :: 0 <= j < |members| ==> !InScope(members[j], activeScope, true)
  {
    hide IsGroup, NoOverlap;
    var candidates := Candidates(members, activeScope, true, |members|);
    assert forall k :: 0 <= k < |candidates| ==> InScope(members[candidates[k]], activeScope, true);
    if |candidates| > 1 {
      GroupScopes(db, pressed, members, candidates[0], candidates[1]);
      assert false;
    }
  }

  /** With tab hotkeys off, an unshared press plays exactly when one binding has the chord. */
  lemma UnsharedPressAnywhere(db: Db, pressed: string, members: seq<GroupMember>, activeScope: string, multiSound: bool,
                              mode: GroupMode, last: Option<string>, entropy: nat)
    requires NoOverlap(db) && IsGroup(db, pressed, members)
    ensures SelectFromGroup(members, activeScope, Toggles(false, multiSound), mode, last, entropy)
         == if members == [] then Inert(NoMembers) else if |members| == 1 then Play(0) else Inert(Ambiguous)
  {
    hide IsGroup, NoOverlap;
    var candidates := Candidates(members, activeScope, false, |members|);
    assert forall i :: 0 <= i < |members| ==> InScope(members[i], activeScope, false);
    AllCandidates(members, activeScope, |members|);
    if |members| > 1 {
      GroupScopes(db, pressed, members, 0, 1);
    }
  }

  lemma {:induction false} AllCandidates(members: seq<GroupMember>, activeScope: string, n: nat)
    requires n <= |members|
    ensures |Candidates(members, activeScope, false, n)| == n
    ensures forall k :: 0 <= k < n ==> Candidates(members, activeScope, false, n)[k] == k
  {
    if n > 0 { AllCandidates(members, activeScope, n - 1); }
  }

  // ---- fair rotation -------------------------------------------------------------------------------------

  /** Within one scope a sound has one binding, so the candidates of a playable group are distinct sounds. */
  lemma SameScopeDistinct(db: Db, pressed: string, members: seq<GroupMember>, i: nat, j: nat)
    requires UniqueSlots(db.bindings) && SoundsOk(db.sounds) && IsGroup(db, pressed, members)
    requires i < |members| && j < |members| && i != j && members[i].scope == members[j].scope
    ensures members[i].soundId != members[j].soundId
  {
    var a, b := members[i].bindingId, members[j].bindingId;
    assert Grouped(db, pressed, a) && Grouped(db, pressed, b) && a != b;
    assert !SameSlot(db.bindings[a], db.bindings[b].owner, db.bindings[b].scope);
  }

  /** Several candidates, all in one scope, with several sounds per hotkey allowed. */
  ghost predicate Playable(members: seq<GroupMember>, candidates: seq<nat>) {
    && |candidates| > 1
    && (forall k :: 0 <= k < |candidates| ==> candidates[k] < |members|)
    && (forall k :: 0 <= k < |candidates| ==> members[candidates[k]].scope == members[candidates[0]].scope)
    && (forall j, k :: 0 <= j < k < |candidates| ==> members[candidates[j]].soundId != members[candidates[k]].soundId)
  }

  lemma GroupPlayable(db: Db, pressed: string, members: seq<GroupMember>, activeScope: string, tabHotkeys: bool)
    requires UniqueSlots(db.bindings) && SoundsOk(db.sounds) && IsGroup(db, pressed, members)
    requires var candidates := Candidates(members, activeScope, tabHotkeys, |members|);
      |candidates| > 1 && forall k :: 0 <= k < |candidates| ==>
        members[candidates[k]].scope == members[candidates[0]].scope
    ensures Playable(members, Candidates(members, activeScope, tabHotkeys, |members|))
  {
    hide UniqueSlots, SoundsOk, IsGroup;
    var candidates := Candidates(members, activeScope, tabHotkeys, |members|);
    forall j, k | 0 <= j < k < |candidates| ensures members[candidates[j]].soundId != members[candidates[k]].soundId {
      SameScopeDistinct(db, pressed, members, candidates[j], candidates[k]);
    }
  }

  /** The sound played last after `n` presses, each feeding the next one's cursor. */
  function LastPlayed(members: seq<GroupMember>, activeScope: string, toggles: Toggles, mode: GroupMode,
                      last: Option<string>, entropies: seq<nat>): Option<string>
    decreases |entropies|
  {
    if entropies == [] then last
    else
      var prior := LastPlayed(members, activeScope, toggles, mode, last, entropies[..|entropies| - 1]);
      match SelectFromGroup(members, activeScope, toggles, mode, prior, entropies[|entropies| - 1])
      case Play(i) => Some(members[i].soundId)
      case Inert(_) => prior
  }

  lemma PlaceIs(members: seq<GroupMember>, candidates: seq<nat>, p: nat)
    requires Playable(members, candidates) && p < |candidates|
    ensures PlaceOf(members, candidates, Some(members[candidates[p]].soundId)) == Some(p)
  {}

  /** Where the first press of a rotation lands. */
  function FirstPlace(members: seq<GroupMember>, candidates: seq<nat>, mode: GroupMode, last: Option<string>): nat
    requires forall k :: 0 <= k < |candidates| ==> candidates[k] < |members|
    requires |candidates| > 0
  {
    match PlaceOf(members, candidates, last)
    case None => 0
    case Some(p) => if mode == Next then (p + 1) % |candidates| else p
  }

  /** One step round a ring of `n` places. */
  function Around(p: nat, n: nat): nat
    requires p <= n
  {
    if p == n then 0 else p
  }

  lemma WrapIs(p: nat, n: nat)
    requires p < n
    ensures (p + 1) % n == Around(p + 1, n)
  {
    if p + 1 < n { SmallMod(p + 1, n); }
  }

  lemma SmallMod(x: nat, n: nat)
    requires x < n
    ensures x % n == x
  {}

  lemma OnePress(members: seq<GroupMember>, activeScope: string, toggles: Toggles, mode: GroupMode,
                 last: Option<string>, entropy: nat)
    requires toggles.multiSound && mode != Random
    requires Playable(members, Candidates(members, activeScope, toggles.tabHotkeys, |members|))
    ensures var candidates := Candidates(members, activeScope, toggles.tabHotkeys, |members|);
      && FirstPlace(members, candidates, mode, last) < |candidates|
      && SelectFromGroup(members, activeScope, toggles, mode, last, entropy)
         == Play(candidates[FirstPlace(members, candidates, mode, last)])
  {
    hide Candidates, PlaceOf;
    var candidates := Candidates(members, activeScope, toggles.tabHotkeys, |members|);
    var previous := PlaceOf(members, candidates, last);
    if previous.Some? { WrapIs(previous.value, |candidates|); }
  }

  /** The place press number `k` plays, counting from 1, for the first `n` presses. */
  function PlaceAt(first: nat, k: nat, n: nat, mode: GroupMode): (place: nat)
    requires first < n && 1 <= k <= n
    ensures place < n
  {
    if mode != Next then first else if first + k - 1 < n then first + k - 1 else first + k - 1 - n
  }

  lemma {:induction false} PressesWalk(members: seq<GroupMember>, activeScope: string, toggles: Toggles,
                                       mode: GroupMode,
                                       last: Option<string>, entropies: seq<nat>)
    requires toggles.multiSound && mode != Random
    requires Playable(members, Candidates(members, activeScope, toggles.tabHotkeys, |members|))
    requires 1 <= |entropies| <= |Candidates(members, activeScope, toggles.tabHotkeys, |members|)|
    ensures var candidates := Candidates(members, activeScope, toggles.tabHotkeys, |members|);
            var first := FirstPlace(members, candidates, mode, last);
      && first < |candidates|
      && LastPlayed(members, activeScope, toggles, mode, last, entropies)
         == Some(members[candidates[PlaceAt(first, |entropies|, |candidates|, mode)]].soundId)
    decreases |entropies|
  {
    hide Candidates, PlaceOf, SelectFromGroup, Playable, FirstPlace;
    var candidates := Candidates(members, activeScope, toggles.tabHotkeys, |members|);
    var prior := entropies[..|entropies| - 1];
    var cursor := LastPlayed(members, activeScope, toggles, mode, last, prior);
    PlayableIndices(members, candidates);
    OnePress(members, activeScope, toggles, mode, last, entropies[|entropies| - 1]);
    OnePress(members, activeScope, toggles, mode, cursor, entropies[|entropies| - 1]);
    if prior != [] {
      PressesWalk(members, activeScope, toggles, mode, last, prior);
      var place := PlaceAt(FirstPlace(members, candidates, mode, last), |prior|, |candidates|, mode);
      PlaceAfter(members, candidates, mode, place);
    }
  }

  /** The press after place `p` was played. */
  lemma PlaceAfter(members: seq<GroupMember>, candidates: seq<nat>, mode: GroupMode, p: nat)
    requires Playable(members, candidates) && p < |candidates|
    ensures FirstPlace(members, candidates, mode, Some(members[candidates[p]].soundId))
         == if mode == Next then Around(p + 1, |candidates|) else p
  {
    hide PlaceOf;
    PlaceIs(members, candidates, p);
    WrapIs(p, |candidates|);
  }

  lemma PlayableIndices(members: seq<GroupMember>, candidates: seq<nat>)
    requires Playable(members, candidates)
    ensures |candidates| > 1 && forall k :: 0 <= k < |candidates| ==> candidates[k] < |members|
  {}

  /**
   Fair rotation. From any cursor, as many presses in Next mode as there are candidates play every
   candidate exactly once, and in Same mode every press plays what the first one played.
   */
  lemma FairRotation(members: seq<GroupMember>, activeScope: string, toggles: Toggles, mode: GroupMode,
                     last: Option<string>, entropies: seq<nat>, c: nat)
    requires toggles.multiSound && mode != Random
    requires var candidates := Candidates(members, activeScope, toggles.tabHotkeys, |members|);
      Playable(members, candidates) && |entropies| == |candidates| && c < |candidates|
    ensures var candidates := Candidates(members, activeScope, toggles.tabHotkeys, |members|);
      && candidates[c] < |members|
      && var i := candidates[c];
      && (mode == Next ==>
            exists k :: 1 <= k <= |entropies| && PlayedAt(members, activeScope, toggles, mode, last, entropies, k, i))
      && (forall j, k | 1 <= j < k <= |entropies|
            && PlayedAt(members, activeScope, toggles, mode, last, entropies, j, i)
            :: PlayedAt(members, activeScope, toggles, mode, last, entropies, k, i) <==> mode == Same)
  {
    hide Candidates, SelectFromGroup, LastPlayed, FirstPlace;
    var candidates := Candidates(members, activeScope, toggles.tabHotkeys, |members|);
    var first := FirstPlace(members, candidates, mode, last);
    var n := |candidates|;
    OnePress(members, activeScope, toggles, mode, last, 0);
    forall k | 1 <= k <= n
      ensures PlayedAt(members, activeScope, toggles, mode, last, entropies, k, candidates[c]) <==>
        PlaceAt(first, k, n, mode) == c
    {
      PressesWalk(members, activeScope, toggles, mode, last, entropies[..k]);
      SameSound(members, candidates, PlaceAt(first, k, n, mode), c);
    }
    if mode == Next {
      var k := if first <= c then c - first + 1 else c + n - first + 1;
      assert PlaceAt(first, k, n, mode) == c;
    }
  }

  lemma SameSound(members: seq<GroupMember>, candidates: seq<nat>, p: nat, q: nat)
    requires Playable(members, candidates) && p < |candidates| && q < |candidates|
    ensures members[candidates[p]].soundId == members[candidates[q]].soundId <==> p == q
  {}

  /** Press number `k` plays the sound of member `i`. */
  ghost predicate PlayedAt(members: seq<GroupMember>, activeScope: string, toggles: Toggles, mode: GroupMode,
                           last: Option<string>, entropies: seq<nat>, k: nat, i: nat)
    requires k <= |entropies| && i < |members|
  {
    LastPlayed(members, activeScope, toggles, mode, last, entropies[..k]) == Some(members[i].soundId)
  }
}
