/**
 Which of the configured folders a walk starts from: a folder inside another one is left to the
 outer one, so that no file is reached through two of them.
 */
module ScanRoots {
  import opened Wrappers
  import opened Ordering
  import opened Tables

  /** A configured folder and, where it can be resolved, the components of its canonical path. */
  datatype ScanRoot = ScanRoot(configured: string, canonical: Option<Path>)

  predicate PathLess(a: Path, b: Path) {
    if b == [] then false else if a == [] then true
    else TextLess(a[0], b[0]) || (a[0] == b[0] && PathLess(a[1..], b[1..]))
  }

  /** The sort order: resolved before unresolved, fewer components first, then by path and by name. */
  predicate SortsBefore(a: ScanRoot, b: ScanRoot) {
    match (a.canonical, b.canonical)
    case (Some(x), Some(y)) =>
      |x| < |y| || (|x| == |y| && (PathLess(x, y) || (x == y && TextLess(a.configured, b.configured))))
    case (Some(_), None) => true
    case (None, Some(_)) => false
    case (None, None) => TextLess(a.configured, b.configured)
  }

  /** What sorting the distinct configured folders yields. */
  ghost predicate Sorted(roots: seq<ScanRoot>) {
    forall i, j :: 0 <= i < j < |roots| ==> SortsBefore(roots[i], roots[j])
  }

  predicate Owned(owners: seq<Path>, path: Path) {
    exists i :: 0 <= i < |owners| && owners[i] <= path
  }

  /** The canonical paths that own everything below them, after the first `n` roots. */
  function Owners(roots: seq<ScanRoot>, n: nat): seq<Path>
    requires n <= |roots|
  {
    if n == 0 then []
    else
      var prior := Owners(roots, n - 1);
      match roots[n - 1].canonical
      case None => prior
      case Some(path) => if Owned(prior, path) then prior else prior + [path]
  }

  function Kept(roots: seq<ScanRoot>, n: nat): seq<string>
    requires n <= |roots|
  {
    if n == 0 then []
    else
      var prior := Kept(roots, n - 1);
      match roots[n - 1].canonical
      case Some(path) => if Owned(Owners(roots, n - 1), path) then prior else prior + [roots[n - 1].configured]
      case None => prior + [roots[n - 1].configured]
  }

  method FilterRoots(roots: seq<ScanRoot>) returns (kept: seq<string>)
    ensures kept == Kept(roots, |roots|)
  {
    var owners: seq<Path> := [];
    kept := [];
    for index := 0 to |roots|
      invariant owners == Owners(roots, index) && kept == Kept(roots, index)
    {
      var root := roots[index];
      if root.canonical.None? {
        kept := kept + [root.configured];
      } else if !Owned(owners, root.canonical.value) {
        owners := owners + [root.canonical.value];
        kept := kept + [root.configured];
      }
    }
  }

  lemma SortedDepths(roots: seq<ScanRoot>, i: nat, j: nat)
    requires Sorted(roots) && i < j < |roots| && roots[j].canonical.Some?
    ensures roots[i].canonical.Some? && |roots[i].canonical.value| <= |roots[j].canonical.value|
  {
    assert SortsBefore(roots[i], roots[j]);
  }

  ghost predicate Configured(roots: seq<ScanRoot>, n: nat, path: Path)
    requires n <= |roots|
  {
    exists k :: 0 <= k < n && roots[k].canonical == Some(path)
  }

  lemma ConfiguredGrows(roots: seq<ScanRoot>, n: nat)
    requires 0 < n <= |roots|
    ensures forall path :: Configured(roots, n - 1, path) ==> Configured(roots, n, path)
    ensures roots[n - 1].canonical.Some? ==> Configured(roots, n, roots[n - 1].canonical.value)
  {}

  /** No owner lies inside another, and no owner is deeper than the roots still to come. */
  lemma {:induction false} OwnersApart(roots: seq<ScanRoot>, n: nat)
    requires Sorted(roots) && n <= |roots|
    ensures forall i, j :: 0 <= i < j < |Owners(roots, n)| ==>
      !(Owners(roots, n)[i] <= Owners(roots, n)[j]) && !(Owners(roots, n)[j] <= Owners(roots, n)[i])
    ensures forall i :: 0 <= i < |Owners(roots, n)| ==> Configured(roots, n, Owners(roots, n)[i])
  {
    hide Owned, Sorted;
    if n > 0 {
      OwnersApart(roots, n - 1);
      ConfiguredGrows(roots, n);
      var prior := Owners(roots, n - 1);
      if roots[n - 1].canonical.Some? && !Owned(prior, roots[n - 1].canonical.value) {
        var path := roots[n - 1].canonical.value;
        forall i | 0 <= i < |prior| ensures !(prior[i] <= path) && !(path <= prior[i]) {
          var k :| 0 <= k < n - 1 && roots[k].canonical == Some(prior[i]);
          SortedDepths(roots, k, n - 1);
          NotOwned(prior, path, i);
        }
      }
    }
  }

  lemma NotOwned(owners: seq<Path>, path: Path, i: nat)
    requires !Owned(owners, path) && i < |owners|
    ensures !(owners[i] <= path)
  {}

  lemma {:induction false} OwnersCover(roots: seq<ScanRoot>, n: nat, k: nat)
    requires k < n <= |roots| && roots[k].canonical.Some?
    ensures Owned(Owners(roots, n), roots[k].canonical.value)
  {
    var prior, next := Owners(roots, n - 1), Owners(roots, n);
    if k < n - 1 {
      OwnersCover(roots, n - 1, k);
      var i :| 0 <= i < |prior| && prior[i] <= roots[k].canonical.value;
      assert next[i] == prior[i];
    } else if !Owned(prior, roots[k].canonical.value) {
      assert next[|prior|] == roots[k].canonical.value;
    }
  }

  /** A root is kept exactly when it cannot be resolved or is the first inside no earlier owner. */
  lemma {:induction false} KeptExactly(roots: seq<ScanRoot>, n: nat)
    requires n <= |roots|
    ensures forall r :: r in Kept(roots, n) <==>
      exists k :: 0 <= k < n && roots[k].configured == r
        && (roots[k].canonical.None? || !Owned(Owners(roots, k), roots[k].canonical.value))
  {
    hide Owned, Owners;
    if n > 0 { KeptExactly(roots, n - 1); }
  }

  /**
   Every resolvable configured folder is inside exactly one owner, and so is every path below it:
   no canonical path is walked from two roots.
   */
  lemma OneOwnerEach(roots: seq<ScanRoot>, k: nat, path: Path)
    requires Sorted(roots) && k < |roots| && roots[k].canonical.Some? && roots[k].canonical.value <= path
    ensures var owners := Owners(roots, |roots|);
      && Owned(owners, path)
      && (forall i, j :: 0 <= i < j < |owners| ==> !(owners[i] <= path && owners[j] <= path))
  {
    hide Sorted, Owners;
    var owners := Owners(roots, |roots|);
    OwnersApart(roots, |roots|);
    OwnersCover(roots, |roots|, k);
    var i :| 0 <= i < |owners| && owners[i] <= roots[k].canonical.value;
    assert owners[i] <= path;
    forall i, j | 0 <= i < j < |owners| ensures !(owners[i] <= path && owners[j] <= path) {
      if owners[i] <= path && owners[j] <= path { TwoPrefixes(owners[i], owners[j], path); }
    }
  }

  /** Owned by what came before means: some earlier folder contains it. */
  lemma {:induction false} OwnedExactly(roots: seq<ScanRoot>, n: nat, path: Path)
    requires n <= |roots|
    ensures Owned(Owners(roots, n), path) <==>
      exists j :: 0 <= j < n && roots[j].canonical.Some? && roots[j].canonical.value <= path
  {
    if n > 0 {
      OwnedExactly(roots, n - 1, path);
      var prior, next := Owners(roots, n - 1), Owners(roots, n);
      if roots[n - 1].canonical.Some? {
        var own := roots[n - 1].canonical.value;
        OwnedExactly(roots, n - 1, own);
        if Owned(prior, path) {
          var i :| 0 <= i < |prior| && prior[i] <= path;
          assert next[i] == prior[i];
        } else if own <= path && !Owned(prior, own) {
          assert next[|prior|] == own;
        }
      }
    }
  }

  /** Another configured folder contains this one, or is the same one under a smaller name. */
  ghost predicate Inside(roots: seq<ScanRoot>, k: nat)
    requires k < |roots| && roots[k].canonical.Some?
  {
    exists j :: 0 <= j < |roots| && j != k && roots[j].canonical.Some?
      && roots[j].canonical.value <= roots[k].canonical.value
      && (roots[j].canonical == roots[k].canonical ==> ComesFirst(roots[j].configured, roots[k].configured))
  }

  /**
   Of the configured folders exactly those are walked that cannot be resolved or lie in no other one;
   of several names of one folder the smallest counts.
   */
  lemma KeptOutermost(roots: seq<ScanRoot>, k: nat)
    requires Sorted(roots) && k < |roots|
    requires forall i, j :: 0 <= i < j < |roots| ==> roots[i].configured != roots[j].configured
    ensures roots[k].configured in Kept(roots, |roots|) <==> roots[k].canonical.None? || !Inside(roots, k)
  {
    hide Owners, Kept, ComesFirst;
    KeptExactly(roots, |roots|);
    assert roots[k].configured in Kept(roots, |roots|) <==>
      roots[k].canonical.None? || !Owned(Owners(roots, k), roots[k].canonical.value);
    if roots[k].canonical.Some? {
      OwnedExactly(roots, k, roots[k].canonical.value);
      forall j | 0 <= j < |roots| && j != k && roots[j].canonical.Some?
        && roots[j].canonical.value <= roots[k].canonical.value
        ensures j < k <==>
          (roots[j].canonical == roots[k].canonical ==> ComesFirst(roots[j].configured, roots[k].configured))
      {
        ContainerEarlier(roots, j, k);
      }
    }
  }

  /** A container comes earlier, and the same folder by its name. */
  lemma ContainerEarlier(roots: seq<ScanRoot>, j: nat, k: nat)
    requires Sorted(roots) && j < |roots| && k < |roots| && j != k
    requires roots[j].canonical.Some? && roots[k].canonical.Some?
    requires roots[j].canonical.value <= roots[k].canonical.value
    ensures j < k <==>
      (roots[j].canonical == roots[k].canonical ==> ComesFirst(roots[j].configured, roots[k].configured))
  {
    hide ComesFirst;
    var x, y := roots[j].canonical.value, roots[k].canonical.value;
    TextLessExactly(roots[j].configured, roots[k].configured);
    TextLessTotal(roots[j].configured, roots[k].configured);
    PathLessIrreflexive(x);
    assert |x| == |y| ==> x == y;
    if j < k { assert SortsBefore(roots[j], roots[k]); } else { assert SortsBefore(roots[k], roots[j]); }
  }

  lemma {:induction false} PathLessIrreflexive(a: Path)
    ensures !PathLess(a, a)
  {
    if a != [] {
      TextLessTotal(a[0], a[0]);
      PathLessIrreflexive(a[1..]);
    }
  }

  lemma TwoPrefixes(a: Path, b: Path, path: Path)
    requires a <= path && b <= path
    ensures a <= b || b <= a
  {
    assert a == path[..|a|] && b == path[..|b|];
  }
}
