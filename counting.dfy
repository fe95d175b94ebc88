/** countDataGroups and countDimensions: the length of the gap-free run of
    names base0000, base0001, ... (padded) or base1, base2, ... (unpadded)
    directly under a group. */
module Counting {
  import opened Naming
  import opened Container
  import opened Layout

  /** base + pad(m) exists under g for every m < k. */
  ghost predicate Present(nodes: map<Path, Node>, g: Path, base: string, k: nat) {
    forall m :: 0 <= m < k ==> g + [LayerName(base, m)] in nodes
  }

  /** The names base + pad(m), m < k, exist and base + pad(k) does not. */
  ghost predicate GapFreeRun(nodes: map<Path, Node>, g: Path, base: string, k: nat) {
    Present(nodes, g, base, k) && g + [LayerName(base, k)] !in nodes
  }

  /** The paths g + [base + pad(m)] for m < k. */
  ghost function LayerPaths(g: Path, base: string, k: nat): set<Path> {
    set m | 0 <= m < k :: g + [LayerName(base, m)]
  }

  lemma {:induction false} LayerImageCard(g: Path, base: string, k: nat)
    ensures |LayerPaths(g, base, k)| == k
  {
    if k > 0 {
      LayerImageCard(g, base, k - 1);
      LayerPathsSnoc(g, base, k - 1);
      LayerPathFresh(g, base, k - 1);
    }
  }

  lemma LayerPathsSnoc(g: Path, base: string, k: nat)
    ensures LayerPaths(g, base, k + 1) == LayerPaths(g, base, k) + {g + [LayerName(base, k)]}
  {
  }

  /** The next path is not among the earlier ones. */
  lemma LayerPathFresh(g: Path, base: string, k: nat)
    ensures g + [LayerName(base, k)] !in LayerPaths(g, base, k)
  {
    var x := g + [LayerName(base, k)];
    if x in LayerPaths(g, base, k) {
      var m :| 0 <= m < k && x == g + [LayerName(base, m)];
      assert x[|g|] == (g + [LayerName(base, m)])[|g|];
      LayerNameInjective(base, k, m);
      assert false;
    }
  }

  /** A run can be no longer than the file has objects. */
  lemma PresentBound(nodes: map<Path, Node>, g: Path, base: string, k: nat)
    requires Present(nodes, g, base, k)
    ensures k <= |nodes|
  {
    var s := LayerPaths(g, base, k);
    LayerImageCard(g, base, k);
    assert s <= nodes.Keys;
    SubsetCard(s, nodes.Keys);
  }

  lemma SubsetCard<T>(a: set<T>, b: set<T>)
    requires a <= b
    ensures |a| <= |b|
  {
    assert b == a + (b - a);
  }

  /** The run length is determined by the file. */
  lemma RunUnique(nodes: map<Path, Node>, g: Path, base: string, k1: nat, k2: nat)
    requires GapFreeRun(nodes, g, base, k1) && GapFreeRun(nodes, g, base, k2)
    ensures k1 == k2
  {
  }

  /** With base0000 and base0002 present but base0001 missing, the run
      stops at 1: the group after the gap is not counted. */
  lemma GapStopsRun(nodes: map<Path, Node>, g: Path, base: string, k: nat)
    requires g + [LayerName(base, 0)] in nodes && g + [LayerName(base, 2)] in nodes
    requires g + [LayerName(base, 1)] !in nodes
    ensures GapFreeRun(nodes, g, base, k) <==> k == 1
  {
    if GapFreeRun(nodes, g, base, k) {
      assert GapFreeRun(nodes, g, base, 1);
      RunUnique(nodes, g, base, k, 1);
    }
  }

  /** When base0000 is missing the run is empty, whatever follows. */
  lemma MissingFirstGivesZero(nodes: map<Path, Node>, g: Path, base: string)
    requires g + [LayerName(base, 0)] !in nodes
    ensures GapFreeRun(nodes, g, base, 0)
  {
  }

  /** countDataGroups. */
  method CountDataGroups(file: H5File, group: Path, basename: string) returns (count: nat)
    requires IsGroup(file.nodes, group)
    ensures GapFreeRun(file.nodes, group, basename, count)
  {
    count := 0;
    var currentName := LayerName(basename, count);
    while file.NameExists(group + [currentName])
      invariant count <= |file.nodes|
      invariant currentName == LayerName(basename, count)
      invariant Present(file.nodes, group, basename, count)
      decreases |file.nodes| - count
    {
      count := count + 1;
      currentName := LayerName(basename, count);
      PresentBound(file.nodes, group, basename, count);
    }
  }

  // ---------------------------------------------------------------------
  // Unpadded dimension names

  ghost predicate DimPresent(nodes: map<Path, Node>, g: Path, base: string, k: nat) {
    forall i :: 1 <= i <= k ==> g + [DimName(base, i)] in nodes
  }

  /** The paths g + [base + str(i)] for 1 <= i <= k. */
  ghost function DimPaths(g: Path, base: string, k: nat): set<Path> {
    set i | 1 <= i <= k :: g + [DimName(base, i)]
  }

  lemma {:induction false} DimImageCard(g: Path, base: string, k: nat)
    ensures |DimPaths(g, base, k)| == k
  {
    if k > 0 {
      DimImageCard(g, base, k - 1);
      DimPathsSnoc(g, base, k);
      DimPathFresh(g, base, k);
    }
  }

  lemma DimPathsSnoc(g: Path, base: string, k: nat)
    requires k > 0
    ensures DimPaths(g, base, k) == DimPaths(g, base, k - 1) + {g + [DimName(base, k)]}
  {
  }

  lemma DimPathFresh(g: Path, base: string, k: nat)
    requires k > 0
    ensures g + [DimName(base, k)] !in DimPaths(g, base, k - 1)
  {
    var x := g + [DimName(base, k)];
    if x in DimPaths(g, base, k - 1) {
      var i :| 1 <= i <= k - 1 && x == g + [DimName(base, i)];
      assert x[|g|] == (g + [DimName(base, i)])[|g|];
      DimNameInjective(base, k, i);
      assert false;
    }
  }

  lemma DimPresentBound(nodes: map<Path, Node>, g: Path, base: string, k: nat)
    requires DimPresent(nodes, g, base, k)
    ensures k <= |nodes|
  {
    var s := DimPaths(g, base, k);
    DimImageCard(g, base, k);
    assert s <= nodes.Keys;
    SubsetCard(s, nodes.Keys);
  }

  lemma DimRunUnique(nodes: map<Path, Node>, g: Path, base: string, k1: nat, k2: nat)
    requires DimRun(nodes, g, base, k1) && DimRun(nodes, g, base, k2)
    ensures k1 == k2
  {
  }

  /** countDimensions: the counter starts at 1 and the result is one less
      than the first missing index. */
  method CountDimensions(file: H5File, group: Path, basename: string) returns (numDims: nat)
    requires IsGroup(file.nodes, group)
    ensures DimRun(file.nodes, group, basename, numDims)
  {
    var count := 1;
    var currentName := DimName(basename, count);
    while file.NameExists(group + [currentName])
      invariant 1 <= count <= |file.nodes| + 1
      invariant currentName == DimName(basename, count)
      invariant DimPresent(file.nodes, group, basename, count - 1)
      decreases |file.nodes| + 1 - count
    {
      DimPresentBound(file.nodes, group, basename, count);
      count := count + 1;
      currentName := DimName(basename, count);
    }
    numDims := count - 1;
  }

  /** In a group written from a calibrated spec, countDimensions("dim")
      finds the rank of the primary dataset. */
  lemma CountOfCalibrated(nodes: map<Path, Node>, g: Path, spec: GroupSpec, primary: string, k: nat)
    requires Holds(nodes, g, spec) && Calibrated(spec.members, primary)
    requires DimRun(nodes, g, "dim", k)
    ensures k == |Lookup(spec.members, primary).value.shape|
  {
    CalibratedRun(nodes, g, spec, primary);
    DimRunUnique(nodes, g, "dim", k, |Lookup(spec.members, primary).value.shape|);
  }
}
