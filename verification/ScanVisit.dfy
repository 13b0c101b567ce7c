/**
 Walking, probing and pushing under a cancellation flag. The visitor gathers files, probes them a
 batch at a time and pushes what was probed; the flag is read before every entry of the walk, before
 and after every probe and before every push. A batch of which nothing was probed in time goes
 unnoticed, so a cancellation at the very end can pass for a complete visit that lacks files.
 */
module ScanVisit {
  import opened Wrappers
  import opened Tables
  import opened RootScan
  import opened ScanBatch

  const METADATA_BATCH: nat := 32

  /** The cancellation flag: somebody raises it between two readings, after `alarm` of them. */
  class Flag {
    const alarm: nat
    var clock: nat

    constructor (alarm: nat)
      ensures this.alarm == alarm && clock == 0
    {
      this.alarm, clock := alarm, 0;
    }

    method Load() returns (raised: bool)
      modifies this
      ensures raised <==> alarm <= old(clock)
      ensures clock == old(clock) + 1
    {
      raised := alarm <= clock;
      clock := clock + 1;
    }
  }

  /** An entry of the walk: an audio file, or a root, directory or other file that yields none. */
  type Entry = Option<File>

  function Audio(walk: seq<Entry>, n: nat): seq<File>
    requires n <= |walk|
  {
    if n == 0 then [] else Audio(walk, n - 1) + if walk[n - 1].Some? then [walk[n - 1].value] else []
  }

  /** What the visitor has done so far, if no push has failed. */
  datatype Visit = Visit(clock: nat, pending: nat, pushed: nat, noticed: bool)

  /** Of `n` files probed in order, those with the flag down before and after. */
  function Probed(n: nat, clock: nat, alarm: nat): nat {
    if clock + 2 * n <= alarm then n else if alarm <= clock then 0 else (alarm - clock) / 2
  }

  /** Probing and pushing the pending files: once the flag is up nothing more is probed or pushed. */
  function Process(v: Visit, alarm: nat): Visit {
    var kept := Probed(v.pending, v.clock, alarm);
    if v.clock + 3 * v.pending <= alarm then Visit(v.clock + 3 * v.pending, 0, v.pushed + v.pending, v.noticed)
    else
      Visit(alarm + 1, 0, v.pushed + (if alarm <= v.clock + 2 * v.pending then 0 else alarm - v.clock - 2 * v.pending),
            v.noticed || kept > 0)
  }

  /** One entry of the walk. */
  function Advance(v: Visit, entry: Entry, alarm: nat): Visit {
    if v.noticed then v
    else if alarm <= v.clock then v.(clock := v.clock + 1, noticed := true)
    else if entry.None? then v.(clock := v.clock + 1)
    else if v.pending + 1 < METADATA_BATCH then v.(clock := v.clock + 1, pending := v.pending + 1)
    else Process(v.(clock := v.clock + 1, pending := v.pending + 1), alarm)
  }

  function Walked(walk: seq<Entry>, n: nat, alarm: nat): Visit
    requires n <= |walk|
  {
    if n == 0 then Visit(1, 0, 0, false) else Advance(Walked(walk, n - 1, alarm), walk[n - 1], alarm)
  }

  /** The whole visit: what is pending at the end of the walk is processed too. */
  function VisitAll(walk: seq<Entry>, alarm: nat): Visit {
    var end := Walked(walk, |walk|, alarm);
    if end.noticed then end else Process(end, alarm)
  }

  // ---- when a visit is complete -------------------------------------------------------------------

  /** Files not yet pushed after `n` entries of an undisturbed walk. */
  function Waiting(walk: seq<Entry>, n: nat): nat
    requires n <= |walk|
  {
    |Audio(walk, n)| % METADATA_BATCH
  }

  /** How often the flag has been read by then. */
  function Readings(walk: seq<Entry>, n: nat): nat
    requires n <= |walk|
  {
    1 + n + 3 * (|Audio(walk, n)| - Waiting(walk, n))
  }

  /** The files of the last batch, if the flag is not read again after their pushes. */
  function Tail(walk: seq<Entry>): nat {
    if Waiting(walk, |walk|) > 0 then Waiting(walk, |walk|)
    else if |walk| > 0 && walk[|walk| - 1].Some? then METADATA_BATCH else 0
  }

  lemma NextWaiting(walk: seq<Entry>, n: nat)
    requires 0 < n <= |walk|
    ensures walk[n - 1].None? ==> |Audio(walk, n)| == |Audio(walk, n - 1)| && Waiting(walk, n) == Waiting(walk, n - 1)
    ensures walk[n - 1].Some? ==> |Audio(walk, n)| == |Audio(walk, n - 1)| + 1
    ensures walk[n - 1].Some? ==>
      Waiting(walk, n) == if Waiting(walk, n - 1) + 1 < METADATA_BATCH then Waiting(walk, n - 1) + 1 else 0
    ensures Waiting(walk, n - 1) <= |Audio(walk, n - 1)| && Waiting(walk, n - 1) < METADATA_BATCH
  {}

  /** The flag goes up just as the batch that the last of these entries completes is about to be probed. */
  predicate Slips(walk: seq<Entry>, n: nat, alarm: nat)
    requires n <= |walk|
  {
    && 0 < n && walk[n - 1].Some? && Waiting(walk, n) == 0
    && Readings(walk, n) <= alarm + 3 * METADATA_BATCH <= Readings(walk, n) + 1
  }

  /** A batch is pushed whole, goes unnoticed when the flag went up before anything was probed, or is noticed. */
  lemma ProcessExactly(v: Visit, alarm: nat)
    requires !v.noticed && v.clock <= alarm
    ensures var next := Process(v, alarm);
      && next.pending == 0
      && (v.clock + 3 * v.pending <= alarm ==>
            next == Visit(v.clock + 3 * v.pending, 0, v.pushed + v.pending, false))
      && (alarm < v.clock + 3 * v.pending ==>
            && next.clock == alarm + 1 && v.pushed <= next.pushed < v.pushed + v.pending
            && (!next.noticed <==> alarm <= v.clock + 1)
            && (!next.noticed ==> next.pushed == v.pushed))
  {}

  lemma {:induction false} WalkedExactly(walk: seq<Entry>, n: nat, alarm: nat)
    requires n <= |walk| && 0 < alarm
    ensures Waiting(walk, n) <= |Audio(walk, n)| && Waiting(walk, n) < METADATA_BATCH
    ensures Slips(walk, n, alarm) ==> METADATA_BATCH <= |Audio(walk, n)|
    ensures var v := Walked(walk, n, alarm);
      if Readings(walk, n) <= alarm
      then v == Visit(Readings(walk, n), Waiting(walk, n), |Audio(walk, n)| - Waiting(walk, n), false)
      else if Slips(walk, n, alarm) then v == Visit(alarm + 1, 0, |Audio(walk, n)| - METADATA_BATCH, false)
      else v.noticed
  {
    hide Waiting, Process;
    if n == 0 {
      assert Waiting(walk, 0) == 0 by { NoneWaiting(walk); }
    } else {
      WalkedExactly(walk, n - 1, alarm);
      NextWaiting(walk, n);
      var v := Walked(walk, n - 1, alarm);
      if Readings(walk, n - 1) < alarm && walk[n - 1].Some? && v.pending + 1 == METADATA_BATCH {
        ProcessExactly(v.(clock := v.clock + 1, pending := v.pending + 1), alarm);
      }
    }
  }

  lemma NoneWaiting(walk: seq<Entry>)
    ensures Waiting(walk, 0) == 0
  {}

  /**
   Exactly how a visit ends. It pushes every file if and only if the flag stays down for all its
   readings. It ends unnoticed with the last batch missing if and only if the flag goes up just before
   that batch is probed, or just after its first probe has begun. Otherwise the cancellation is noticed.
   */
  lemma VisitExactly(walk: seq<Entry>, alarm: nat)
    requires 0 < alarm
    ensures var v, all, last := VisitAll(walk, alarm), |Audio(walk, |walk|)|, Tail(walk);
            var readings := 1 + |walk| + 3 * all;
      && last == (if all % 32 > 0 then all % 32 else if |walk| > 0 && walk[|walk| - 1].Some? then 32 else 0)
      && last <= all && v.pushed <= all
      && (!v.noticed && v.pushed == all <==> readings <= alarm)
      && (!v.noticed && v.pushed < all <==> 0 < last && readings - 3 * last <= alarm <= readings - 3 * last + 1)
      && (!v.noticed && v.pushed < all ==> v.pushed == all - last)
  {
    hide Waiting, Process;
    TailIs(walk);
    WalkedExactly(walk, |walk|, alarm);
    PushedBound(walk, |walk|, alarm);
    var end := Walked(walk, |walk|, alarm);
    if |walk| > 0 { NextWaiting(walk, |walk|); }
    if !end.noticed {
      if end.clock <= alarm { ProcessExactly(end, alarm); } else { ProcessNothing(end, alarm); }
    }
  }

  lemma TailIs(walk: seq<Entry>)
    ensures var all := |Audio(walk, |walk|)|;
      Tail(walk) == if all % 32 > 0 then all % 32 else if |walk| > 0 && walk[|walk| - 1].Some? then 32 else 0
  {}

  lemma ProcessNothing(v: Visit, alarm: nat)
    requires v.pending == 0
    ensures Process(v, alarm).pushed == v.pushed && Process(v, alarm).noticed == v.noticed
  {}

  /** No more is pushed and pending than there are files. */
  lemma {:induction false} PushedBound(walk: seq<Entry>, n: nat, alarm: nat)
    requires n <= |walk|
    ensures Walked(walk, n, alarm).pushed + Walked(walk, n, alarm).pending <= |Audio(walk, n)|
  {
    if n > 0 { PushedBound(walk, n - 1, alarm); }
  }

  /** What is pushed stays pushed. */
  lemma {:induction false} PushedGrows(walk: seq<Entry>, n: nat, alarm: nat)
    requires n <= |walk|
    ensures Walked(walk, n, alarm).pushed <= VisitAll(walk, alarm).pushed
    ensures Walked(walk, n, alarm).noticed ==> VisitAll(walk, alarm).noticed
    decreases |walk| - n
  {
    if n < |walk| { PushedGrows(walk, n + 1, alarm); }
  }

  /** A cancellation raised while the only file of a walk is about to be probed goes unnoticed. */
  lemma UnnoticedCancel(file: File)
    ensures VisitAll([Some(file)], 2) == Visit(3, 0, 0, false) && Audio([Some(file)], 1) == [file]
  {
    assert Walked([Some(file)], 0, 2) == Visit(1, 0, 0, false);
    assert Walked([Some(file)], 1, 2) == Visit(2, 1, 0, false);
    assert Audio([Some(file)], 0) == [];
  }
}
