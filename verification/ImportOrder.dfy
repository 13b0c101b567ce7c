/**
 The import's two buffers. Sounds and their hotkeys are flushed to the store 512 rows at a time,
 each buffer by its own count, and the store refuses a hotkey whose sound it does not have yet.
 */
module ImportOrder {
  import opened Wrappers
  import opened Tables

  /** A sound of the legacy document, and whether it has a hotkey. */
  datatype LegacySound = LegacySound(id: string, path: string, hotkey: bool, volume: nat, duration: Option<nat>)

  /** The unique columns of the sounds table. */
  ghost predicate DistinctRows(rows: seq<LegacySound>) {
    forall i, j :: 0 <= i < j < |rows| ==> rows[i].id != rows[j].id && rows[i].path != rows[j].path
  }

  /** The table's check on the volume, and the range of the duration column. */
  predicate InRange(row: LegacySound) {
    row.volume <= MAX_VOLUME && (row.duration.Some? ==> row.duration.value <= I64_MAX)
  }

  /** The rows the sounds table takes. */
  ghost predicate Fits(rows: seq<LegacySound>) {
    DistinctRows(rows) && forall i :: 0 <= i < |rows| ==>
      rows[i].volume <= 100 && (rows[i].duration.Some? ==> rows[i].duration.value <= 9_223_372_036_854_775_807)
  }

  predicate Insertable(rows: seq<LegacySound>)
    ensures Insertable(rows) <==> Fits(rows)
  {
    && (forall i | 0 <= i < |rows| :: InRange(rows[i]))
    && (forall i, j | 0 <= i < |rows| && i < j < |rows| :: rows[i].id != rows[j].id && rows[i].path != rows[j].path)
  }

  predicate Bindable(sounds: seq<LegacySound>, bound: seq<string>) {
    && (forall i | 0 <= i < |bound| :: exists k | 0 <= k < |sounds| :: sounds[k].id == bound[i])
    && (forall i, j | 0 <= i < |bound| && i < j < |bound| :: bound[i] != bound[j])
  }

  /** The binding ids of the first `n` sounds' hotkeys, in order. */
  function HotkeyIds(sounds: seq<LegacySound>, n: nat): seq<string>
    requires n <= |sounds|
  {
    if n == 0 then []
    else HotkeyIds(sounds, n - 1) + if sounds[n - 1].hotkey then [sounds[n - 1].id] else []
  }

  /** Whenever a sound completes a batch of hotkeys it also completes a batch of sounds. */
  predicate Aligned(sounds: seq<LegacySound>, n: nat)
    requires n <= |sounds|
  {
    forall k | 0 < k <= n :: AlignedAt(sounds, k)
  }

  predicate AlignedAt(sounds: seq<LegacySound>, k: nat)
    requires 0 < k <= |sounds|
  {
    sounds[k - 1].hotkey && |HotkeyIds(sounds, k)| % 512 == 0 ==> k % 512 == 0
  }

  /** What the import of a document's sounds and their hotkeys takes. */
  predicate Accepts(sounds: seq<LegacySound>) {
    Insertable(sounds) && Aligned(sounds, |sounds|)
  }

  class ImportState {
    var sounds: seq<LegacySound>
    var hotkeys: seq<string>
    var storedSounds: seq<LegacySound>
    var storedHotkeys: seq<string>

    constructor ()
      ensures sounds == [] && hotkeys == [] && storedSounds == [] && storedHotkeys == []
    {
      sounds, hotkeys, storedSounds, storedHotkeys := [], [], [], [];
    }

    /** One batch of sounds in one transaction. */
    method FlushSounds() returns (ok: bool)
      modifies this
      ensures ok <==> old(sounds) == [] || Fits(old(storedSounds) + old(sounds))
      ensures ok ==> storedSounds == old(storedSounds) + old(sounds)
      ensures sounds == [] && hotkeys == old(hotkeys) && storedHotkeys == old(storedHotkeys)
    {
      var rows := sounds;
      sounds := [];
      if rows != [] && !Insertable(storedSounds + rows) {
        return false;
      }
      storedSounds := storedSounds + rows;
      return true;
    }

    /** One batch of hotkeys in one transaction; every owner must be in the store. */
    method FlushHotkeys() returns (ok: bool)
      modifies this
      ensures ok <==> old(hotkeys) == [] || Bindable(storedSounds, old(storedHotkeys) + old(hotkeys))
      ensures ok ==> storedHotkeys == old(storedHotkeys) + old(hotkeys)
      ensures hotkeys == [] && sounds == old(sounds) && storedSounds == old(storedSounds)
    {
      var rows := hotkeys;
      hotkeys := [];
      if rows != [] && !Bindable(storedSounds, storedHotkeys + rows) {
        return false;
      }
      storedHotkeys := storedHotkeys + rows;
      return true;
    }

    method PushSound(sound: LegacySound) returns (ok: bool)
      modifies this
      ensures ok && old(Fits(storedSounds)) ==> Fits(storedSounds)
      ensures ok ==>
        && storedSounds + sounds == old(storedSounds + sounds) + [sound]
        && storedHotkeys + hotkeys == old(storedHotkeys + hotkeys) + (if sound.hotkey then [sound.id] else [])
        && Flushed(|old(sounds)| + 1, |sounds|) && Flushed(|old(hotkeys)| + (if sound.hotkey then 1 else 0), |hotkeys|)
      ensures ok <==>
        && (|old(sounds)| + 1 >= MAX_BATCH_ROWS ==> Fits(old(storedSounds + sounds) + [sound]))
        && (|old(hotkeys)| + (if sound.hotkey then 1 else 0) >= MAX_BATCH_ROWS ==>
              Bindable(if |old(sounds)| + 1 >= MAX_BATCH_ROWS then old(storedSounds + sounds) + [sound]
                       else old(storedSounds),
                       old(storedHotkeys + hotkeys) + (if sound.hotkey then [sound.id] else [])))
    {
      if sound.hotkey {
        hotkeys := hotkeys + [sound.id];
      }
      sounds := sounds + [sound];
      assert storedSounds + sounds == old(storedSounds + sounds) + [sound];
      assert storedHotkeys + hotkeys == old(storedHotkeys + hotkeys) + if sound.hotkey then [sound.id] else [];
      if |sounds| >= MAX_BATCH_ROWS {
        var flushed := FlushSounds();
        if !flushed {
          return false;
        }
      }
      if |hotkeys| >= MAX_BATCH_ROWS {
        var flushed := FlushHotkeys();
        if !flushed {
          return false;
        }
      }
      return true;
    }
  }

  /** A buffer that has reached a batch has been emptied. */
  ghost predicate Flushed(before: nat, after: nat) {
    after == if before >= MAX_BATCH_ROWS then 0 else before
  }

  // ---- when the import succeeds ---------------------------------------------------------------------

  lemma {:induction false} HotkeyIdsFrom(sounds: seq<LegacySound>, n: nat, i: nat) returns (k: nat)
    requires n <= |sounds| && i < |HotkeyIds(sounds, n)|
    ensures k < n && sounds[k].id == HotkeyIds(sounds, n)[i]
  {
    if i < |HotkeyIds(sounds, n - 1)| {
      k := HotkeyIdsFrom(sounds, n - 1, i);
    } else {
      k := n - 1;
    }
  }

  lemma {:induction false} HotkeyIdsDistinct(sounds: seq<LegacySound>, n: nat)
    requires n <= |sounds| && Fits(sounds)
    ensures forall i, j :: 0 <= i < j < |HotkeyIds(sounds, n)| ==> HotkeyIds(sounds, n)[i] != HotkeyIds(sounds, n)[j]
  {
    if n > 0 {
      HotkeyIdsDistinct(sounds, n - 1);
      var prior := HotkeyIds(sounds, n - 1);
      forall i | 0 <= i < |prior| ensures prior[i] != sounds[n - 1].id {
        var k := HotkeyIdsFrom(sounds, n - 1, i);
      }
    }
  }

  /** The hotkeys of the first `k` sounds can be bound exactly when the store has all `k` of them. */
  lemma BindableExactly(sounds: seq<LegacySound>, k: nat, stored: nat)
    requires Fits(sounds) && stored <= k <= |sounds| && (stored < k ==> sounds[k - 1].hotkey)
    ensures Bindable(sounds[..stored], HotkeyIds(sounds, k)) <==> stored == k
  {
    var ids := HotkeyIds(sounds, k);
    HotkeyIdsDistinct(sounds, k);
    if stored == k {
      forall i | 0 <= i < |ids| ensures exists m | 0 <= m < k :: sounds[..k][m].id == ids[i] {
        var m := HotkeyIdsFrom(sounds, k, i);
        assert sounds[..k][m].id == ids[i];
      }
    } else {
      assert ids[|ids| - 1] == sounds[k - 1].id;
      forall m | 0 <= m < stored ensures sounds[..stored][m].id != ids[|ids| - 1] {
        assert sounds[m].id != sounds[k - 1].id;
      }
    }
  }

  lemma PrefixFits(sounds: seq<LegacySound>, n: nat)
    requires n <= |sounds| && Fits(sounds)
    ensures Fits(sounds[..n])
  {}

  /** The two buffers after the first `n` sounds. */
  ghost predicate Buffered(state: ImportState, list: seq<LegacySound>, n: nat)
    requires n <= |list|
    reads state
  {
    && state.storedSounds + state.sounds == list[..n] && |state.sounds| == n % MAX_BATCH_ROWS
    && state.storedHotkeys + state.hotkeys == HotkeyIds(list, n)
    && |state.hotkeys| == |HotkeyIds(list, n)| % MAX_BATCH_ROWS
    && Fits(state.storedSounds)
    && (Fits(list) ==> Aligned(list, n))
  }

  lemma NextModulo(n: nat)
    ensures (n + 1) % MAX_BATCH_ROWS == if n % MAX_BATCH_ROWS + 1 >= MAX_BATCH_ROWS then 0 else n % MAX_BATCH_ROWS + 1
  {}

  method PushOne(state: ImportState, list: seq<LegacySound>, n: nat) returns (ok: bool)
    requires n < |list| && Buffered(state, list, n)
    modifies state
    ensures ok ==> Buffered(state, list, n + 1)
    ensures !ok ==> !(Fits(list) && AlignedAt(list, n + 1))
  {
    hide Bindable, Fits;
    ghost var stored, buffered := state.storedSounds, |state.hotkeys|;
    assert list[..n + 1] == list[..n] + [list[n]];
    NextModulo(n);
    NextModulo(|HotkeyIds(list, n)|);
    if Fits(list) {
      PrefixFits(list, n + 1);
      if list[n].hotkey {
        ghost var kept := if (n + 1) % MAX_BATCH_ROWS == 0 then n + 1 else |stored|;
        assert (if (n + 1) % MAX_BATCH_ROWS == 0 then list[..n + 1] else stored) == list[..kept];
        BindableExactly(list, n + 1, kept);
      }
    }
    ok := state.PushSound(list[n]);
  }

  /**
   A legacy document's sounds are imported exactly when their ids and paths are distinct, their volumes
   and durations fit the columns, and every sound that completes a batch of 512 hotkeys is itself the
   last of a batch of 512 sounds.
   */
  method ImportSounds(list: seq<LegacySound>) returns (ok: bool)
    ensures ok <==> Accepts(list)
  {
    hide Bindable, Fits, AlignedAt, HotkeyIds;
    var state := new ImportState();
    assert Buffered(state, list, 0) by { StartsBuffered(state, list); }
    for index := 0 to |list|
      invariant Buffered(state, list, index)
    {
      var pushed := PushOne(state, list, index);
      if !pushed {
        return false;
      }
    }
    assert list[..|list|] == list;
    var sounds := state.FlushSounds();
    if !sounds {
      return false;
    }
    if Fits(list) {
      BindableExactly(list, |list|, |list|);
    }
    ok := state.FlushHotkeys();
  }

  lemma StartsBuffered(state: ImportState, list: seq<LegacySound>)
    requires state.sounds == [] && state.hotkeys == [] && state.storedSounds == [] && state.storedHotkeys == []
    ensures Buffered(state, list, 0)
  {}

  // ---- a document the import refuses --------------------------------------------------------------------

  lemma {:induction false} AllButFirst(list: seq<LegacySound>, n: nat)
    requires 1 <= n <= |list| && !list[0].hotkey && forall i :: 0 < i < |list| ==> list[i].hotkey
    ensures |HotkeyIds(list, n)| == n - 1
  {
    if n == 1 {
      assert HotkeyIds(list, 0) == [];
    } else {
      AllButFirst(list, n - 1);
    }
  }

  /** 513 sounds, all but the first with a hotkey, can never be imported. */
  lemma MisalignedImport(list: seq<LegacySound>)
    requires |list| == 513 && !list[0].hotkey && forall i :: 0 < i < |list| ==> list[i].hotkey
    ensures !Accepts(list)
  {
    AllButFirst(list, |list|);
    assert !AlignedAt(list, |list|);
  }
}
