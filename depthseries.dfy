/** depthSeriesSG: the supergroup vd_depth_series stacking the realslice of
    every virtual_detector_depth group along a new depth axis, with the
    output depths as its supergroup axis. */
module DepthSeries {
  import opened Naming
  import opened Hyperslab
  import opened Container
  import opened Layout
  import opened Counting
  import opened Setup
  import opened Virtual

  const Supergroups: Path := ["4DSTEM_simulation", "data", "supergroups"]
  const DepthSeriesGroup: Path := ["4DSTEM_simulation", "data", "supergroups", "vd_depth_series"]
  const VDBase: string := "virtual_detector_depth"

  function LayerGroup(i: nat): Path {
    Realslices + [LayerName(VDBase, i)]
  }

  function RealslicePath(i: nat): Path {
    LayerGroup(i) + ["realslice"]
  }

  function RealslicePaths(num: nat): (ps: seq<Path>)
    ensures |ps| == num && forall i :: 0 <= i < num ==> ps[i] == RealslicePath(i)
  {
    seq(num, i requires 0 <= i < num => RealslicePath(i))
  }

  /** indices: member i sits at position i of the single new axis. */
  function StackIndices(num: nat): (ix: seq<seq<nat>>)
    ensures |ix| == num && forall i :: 0 <= i < num ==> ix[i] == [i]
  {
    seq(num, i => [i])
  }

  /** The layer group and its realslice open, and output_depth reads as a
      float. */
  ghost predicate LayerReadable(nodes: map<Path, Node>, i: nat) {
    && IsGroup(nodes, LayerGroup(i)) && IsDataSet(nodes, RealslicePath(i))
    && "output_depth" in nodes[LayerGroup(i)].attrs && nodes[LayerGroup(i)].attrs["output_depth"].FloatAttr?
  }

  ghost predicate LayersReadable(nodes: map<Path, Node>, num: nat) {
    forall i :: 0 <= i < num ==> LayerReadable(nodes, i)
  }

  /** The output depths, in layer order. */
  ghost function Depths(nodes: map<Path, Node>, num: nat): (ds: seq<real>)
    requires LayersReadable(nodes, num)
    ensures |ds| == num
  {
    seq(num, i requires 0 <= i < num => assert LayerReadable(nodes, i); nodes[LayerGroup(i)].attrs["output_depth"].x)
  }

  /** Every realslice of a readable run is a dataset. */
  lemma ReadablePaths(nodes: map<Path, Node>, num: nat)
    requires LayersReadable(nodes, num)
    ensures forall i :: 0 <= i < num ==> IsDataSet(nodes, RealslicePaths(num)[i])
  {
    forall i | 0 <= i < num
      ensures IsDataSet(nodes, RealslicePaths(num)[i])
    {
      assert LayerReadable(nodes, i);
    }
  }

  /** What countDataGroups(realslices, "virtual_detector_depth") returns. */
  ghost function LayerCount(nodes: map<Path, Node>): (k: nat)
    ensures GapFreeRun(nodes, Realslices, VDBase, k)
  {
    RunExists(nodes, Realslices, VDBase);
    var k :| GapFreeRun(nodes, Realslices, VDBase, k);
    k
  }

  lemma RunExists(nodes: map<Path, Node>, g: Path, base: string)
    ensures exists k :: GapFreeRun(nodes, g, base, k)
  {
    var count := 0;
    while g + [LayerName(base, count)] in nodes
      invariant count <= |nodes|
      invariant Present(nodes, g, base, count)
      decreases |nodes| - count
    {
      count := count + 1;
      PresentBound(nodes, g, base, count);
    }
    assert GapFreeRun(nodes, g, base, count);
  }

  /** Every dimension of g is a stored dataset. */
  ghost predicate DimsStored(nodes: map<Path, Node>, g: Path, k: nat) {
    forall i :: 1 <= i <= k ==> IsStored(nodes, g + [DimName("dim", i)])
  }

  /** Every call of depthSeriesSG succeeds. */
  ghost predicate DepthSeriesReady(nodes: map<Path, Node>) {
    && IsGroup(nodes, Supergroups) && DepthSeriesGroup !in nodes && IsGroup(nodes, Realslices)
    && var num := LayerCount(nodes);
       && num > 0 && LayersReadable(nodes, num)
       && (ReadablePaths(nodes, num); SameSizes(nodes, RealslicePaths(num)))
       && DimsStored(nodes, LayerGroup(0), DimCount(nodes, LayerGroup(0)))
  }

  /** vd_depth_series exists, has no attributes and nothing under it. */
  ghost predicate EmptyDepthSeries(nodes: map<Path, Node>) {
    && DepthSeriesGroup in nodes && nodes[DepthSeriesGroup] == Group(map[])
    && forall c :: DepthSeriesGroup + [c] !in nodes
  }

  /** The file once the virtual dataset "supergroup" stacks the first num
      realslices. */
  ghost function Stacked(nodes: map<Path, Node>, fileName: string, num: nat): map<Path, Node>
    requires LayersReadable(nodes, num) && num > 0
  {
    ReadablePaths(nodes, num);
    nodes[DepthSeriesGroup + ["supergroup"] := VirtualNode(nodes, fileName, RealslicePaths(num), StackIndices(num))]
  }

  /** ... and once the supergroup is configured, with the depths as sgdim1. */
  ghost function StackResult(nodes: map<Path, Node>, fileName: string, num: nat): map<Path, Node>
    requires LayersReadable(nodes, num) && num > 0
    requires DepthSeriesGroup in nodes
  {
    var s := Stacked(nodes, fileName, num);
    Supergroup(s, DepthSeriesGroup, LayerGroup(0), [Depths(nodes, num)], ["Depth"], ["[\U{00C5}]"])
  }

  /** The file after depthSeriesSG. */
  ghost function DepthSeriesResult(nodes: map<Path, Node>, fileName: string): map<Path, Node>
    requires LayersReadable(nodes, LayerCount(nodes)) && LayerCount(nodes) > 0
  {
    var g := nodes[DepthSeriesGroup := Group(map[])];
    LayersReadableAlike(nodes, g, DepthSeriesGroup, Group(map[]), LayerCount(nodes));
    StackResult(g, fileName, LayerCount(nodes))
  }

  // ---------------------------------------------------------------------
  // What the new group leaves alone

  /** a and b agree at p. */
  ghost predicate Agree(a: map<Path, Node>, b: map<Path, Node>, p: Path) {
    (p in a <==> p in b) && (p in a ==> a[p] == b[p])
  }

  /** A path in the realslices group. */
  predicate InRealslices(p: Path) {
    |p| >= 3 && p[..3] == Realslices
  }

  /** Creating vd_depth_series or its virtual dataset changes nothing in
      the realslices group. */
  lemma AgreeAway(a: map<Path, Node>, b: map<Path, Node>, q: Path, x: Node, p: Path)
    requires q == DepthSeriesGroup || q == DepthSeriesGroup + ["supergroup"]
    requires b == a[q := x] && InRealslices(p)
    ensures Agree(a, b, p)
  {
    assert p[2] == "realslices";
    assert q[2] == "supergroups";
  }

  lemma LayerPaths(i: nat, c: string)
    ensures InRealslices(LayerGroup(i)) && InRealslices(RealslicePath(i)) && InRealslices(LayerGroup(i) + [c])
  {
    assert LayerGroup(i)[..3] == Realslices;
    assert RealslicePath(i)[..3] == Realslices;
    assert (LayerGroup(i) + [c])[..3] == Realslices;
  }

  /** The steps of depthSeriesSG: each one sets one path of the
      supergroup; the realslices group reads alike before and after. */
  ghost predicate Step(a: map<Path, Node>, b: map<Path, Node>, q: Path, x: Node) {
    (q == DepthSeriesGroup || q == DepthSeriesGroup + ["supergroup"]) && b == a[q := x]
  }

  lemma StepAgree(a: map<Path, Node>, b: map<Path, Node>, q: Path, x: Node, p: Path)
    requires Step(a, b, q, x) && InRealslices(p)
    ensures Agree(a, b, p)
  {
    AgreeAway(a, b, q, x, p);
  }

  lemma ReadableAlike(a: map<Path, Node>, b: map<Path, Node>, q: Path, x: Node, i: nat)
    requires Step(a, b, q, x)
    ensures LayerReadable(a, i) <==> LayerReadable(b, i)
  {
    LayerPaths(i, "");
    StepAgree(a, b, q, x, LayerGroup(i));
    StepAgree(a, b, q, x, RealslicePath(i));
  }

  lemma LayersReadableAlike(a: map<Path, Node>, b: map<Path, Node>, q: Path, x: Node, num: nat)
    requires Step(a, b, q, x)
    ensures LayersReadable(a, num) <==> LayersReadable(b, num)
    ensures LayersReadable(a, num) ==> Depths(a, num) == Depths(b, num)
  {
    forall i | 0 <= i < num
      ensures LayerReadable(a, i) <==> LayerReadable(b, i)
    {
      ReadableAlike(a, b, q, x, i);
    }
    if LayersReadable(a, num) {
      forall i | 0 <= i < num
        ensures Agree(a, b, LayerGroup(i))
      {
        LayerPaths(i, "");
        StepAgree(a, b, q, x, LayerGroup(i));
      }
    }
  }

  lemma CountAlike(a: map<Path, Node>, b: map<Path, Node>, q: Path, x: Node)
    requires Step(a, b, q, x)
    ensures LayerCount(a) == LayerCount(b)
  {
    var k := LayerCount(b);
    forall m | 0 <= m <= k
      ensures Agree(a, b, Realslices + [LayerName(VDBase, m)])
    {
      LayerPaths(m, "");
      StepAgree(a, b, q, x, LayerGroup(m));
    }
    assert GapFreeRun(a, Realslices, VDBase, k);
    RunUnique(a, Realslices, VDBase, k, LayerCount(a));
  }

  lemma DimsAlike(a: map<Path, Node>, b: map<Path, Node>, q: Path, x: Node)
    requires Step(a, b, q, x)
    ensures DimCount(a, LayerGroup(0)) == DimCount(b, LayerGroup(0))
    ensures forall i :: Agree(a, b, LayerGroup(0) + [DimName("dim", i)])
  {
    forall i
      ensures Agree(a, b, LayerGroup(0) + [DimName("dim", i)])
    {
      LayerPaths(0, DimName("dim", i));
      StepAgree(a, b, q, x, LayerGroup(0) + [DimName("dim", i)]);
    }
    var k := DimCount(b, LayerGroup(0));
    assert DimRun(a, LayerGroup(0), "dim", k);
    DimRunUnique(a, LayerGroup(0), "dim", k, DimCount(a, LayerGroup(0)));
  }

  lemma SizesAlike(a: map<Path, Node>, b: map<Path, Node>, q: Path, x: Node, num: nat)
    requires Step(a, b, q, x) && LayersReadable(a, num) && num > 0
    ensures LayersReadable(b, num)
    ensures (ReadablePaths(a, num); ReadablePaths(b, num);
             SameSizes(a, RealslicePaths(num)) <==> SameSizes(b, RealslicePaths(num)))
  {
    LayersReadableAlike(a, b, q, x, num);
    ReadablePaths(a, num);
    ReadablePaths(b, num);
    forall i | 0 <= i < num
      ensures Agree(a, b, RealslicePath(i))
    {
      LayerPaths(i, "");
      StepAgree(a, b, q, x, RealslicePath(i));
    }
  }

  lemma ChildNamesAlike(a: map<Path, Node>, b: map<Path, Node>, q: Path, x: Node)
    requires Step(a, b, q, x) && ChildNamesFit(a, LayerGroup(0))
    ensures ChildNamesFit(b, LayerGroup(0))
  {
    forall c | LayerGroup(0) + [c] in b
      ensures |PathName(LayerGroup(0) + [c])| < NPOS
    {
      LayerPaths(0, c);
      StepAgree(a, b, q, x, LayerGroup(0) + [c]);
    }
  }

  /** In a file with an empty vd_depth_series holding only the virtual
      dataset, the supergroup can be configured from layer 0 exactly when
      the dimensions of layer 0 are all stored. */
  lemma ConfigurableIff(n1: map<Path, Node>, n2: map<Path, Node>, v: Node)
    requires EmptyDepthSeries(n1)
    requires n2 == n1[DepthSeriesGroup + ["supergroup"] := v]
    ensures DepthSeriesGroup in n2
    ensures SupergroupReady(n2, DepthSeriesGroup, LayerGroup(0), DimCount(n2, LayerGroup(0)), 1)
            <==> DimsStored(n1, LayerGroup(0), DimCount(n1, LayerGroup(0)))
  {
    var sg := DepthSeriesGroup;
    DimsAlike(n1, n2, sg + ["supergroup"], v);
    var k := DimCount(n1, LayerGroup(0));
    forall i | 1 <= i <= k
      ensures sg + [DimName("dim", i)] !in n2
    {
      assert DimName("dim", i)[1] == 'i' && "supergroup"[1] == 'u';
      assert (sg + [DimName("dim", i)])[|sg|] == DimName("dim", i);
    }
    assert DimName("sgdim", 1)[1] == 'g' && "supergroup"[1] == 'u';
    assert (sg + [DimName("sgdim", 1)])[|sg|] == DimName("sgdim", 1);
    assert SgDimsFree(n2, sg, 1);
    if DimsStored(n1, LayerGroup(0), k) {
      forall i | 1 <= i <= k
        ensures DimCopyable(n2, sg, LayerGroup(0), i)
      {
        assert IsStored(n1, LayerGroup(0) + [DimName("dim", i)]);
      }
    }
    if DimsCopyable(n2, sg, LayerGroup(0), k) {
      forall i | 1 <= i <= k
        ensures IsStored(n1, LayerGroup(0) + [DimName("dim", i)])
      {
        assert DimCopyable(n2, sg, LayerGroup(0), i);
      }
    }
  }

  lemma DimsStoredAlike(a: map<Path, Node>, b: map<Path, Node>, q: Path, x: Node)
    requires Step(a, b, q, x)
    ensures DimsStored(a, LayerGroup(0), DimCount(a, LayerGroup(0))) <==> DimsStored(b, LayerGroup(0), DimCount(b, LayerGroup(0)))
  {
    DimsAlike(a, b, q, x);
  }

  lemma RealslicePathsSnoc(i: nat)
    ensures RealslicePaths(i + 1) == RealslicePaths(i) + [RealslicePath(i)]
    ensures StackIndices(i + 1) == StackIndices(i) + [[i]]
  {
    assert RealslicePaths(i + 1)[..i] == RealslicePaths(i);
    assert StackIndices(i + 1)[..i] == StackIndices(i);
  }

  lemma DepthsSnoc(nodes: map<Path, Node>, i: nat)
    requires LayersReadable(nodes, i + 1)
    ensures LayerReadable(nodes, i)
    ensures Depths(nodes, i + 1) == Depths(nodes, i) + [nodes[LayerGroup(i)].attrs["output_depth"].x]
  {
    assert LayerReadable(nodes, i);
    assert Depths(nodes, i + 1)[..i] == Depths(nodes, i);
  }

  /** The loop of depthSeriesSG: open every layer group and its realslice,
      read its output_depth, and collect the paths, the indices and the
      depths. */
  method GatherLayers(file: H5File, num: nat) returns (ok: bool, datasets: seq<Path>, indices: seq<seq<nat>>, depths: seq<real>)
    ensures ok == LayersReadable(file.nodes, num)
    ensures ok ==> datasets == RealslicePaths(num) && indices == StackIndices(num) && depths == Depths(file.nodes, num)
  {
    datasets, indices, depths := [], [], [];
    var i := 0;
    while i < num
      invariant 0 <= i <= num
      invariant LayersReadable(file.nodes, i)
      invariant datasets == RealslicePaths(i) && indices == StackIndices(i)
      invariant depths == Depths(file.nodes, i)
    {
      var g := LayerGroup(i);
      if !(IsGroup(file.nodes, g) && IsDataSet(file.nodes, RealslicePath(i))
           && "output_depth" in file.nodes[g].attrs && file.nodes[g].attrs["output_depth"].FloatAttr?) {
        assert !LayerReadable(file.nodes, i);
        return false, datasets, indices, depths;
      }
      datasets := datasets + [RealslicePath(i)];
      indices := indices + [[i]];
      depths := depths + [file.nodes[g].attrs["output_depth"].x];
      RealslicePathsSnoc(i);
      DepthsSnoc(file.nodes, i);
      i := i + 1;
    }
    ok := true;
  }

  /** The opening of depthSeriesSG: open supergroups, create
      vd_depth_series in it, open realslices and count its layer groups. */
  method OpenDepthSeries(file: H5File) returns (ok: bool, num: nat)
    requires file.Valid()
    modifies file
    ensures file.Valid()
    ensures ok == (IsGroup(old(file.nodes), Supergroups) && DepthSeriesGroup !in old(file.nodes) && IsGroup(old(file.nodes), Realslices))
    ensures ok ==> file.nodes == old(file.nodes)[DepthSeriesGroup := Group(map[])] && num == LayerCount(old(file.nodes))
  {
    ghost var n0 := file.nodes;
    num := 0;
    if !IsGroup(file.nodes, Supergroups) {
      return false, num;
    }
    assert Supergroups + ["vd_depth_series"] == DepthSeriesGroup;
    ok := file.CreateGroup(Supergroups, "vd_depth_series", map[]);
    if !ok {
      return;
    }
    ghost var n1 := file.nodes;
    assert Step(n0, n1, DepthSeriesGroup, Group(map[]));
    StepAgree(n0, n1, DepthSeriesGroup, Group(map[]), Realslices);
    if !IsGroup(file.nodes, Realslices) {
      return false, num;
    }
    num := CountDataGroups(file, Realslices, VDBase);
    CountAlike(n0, n1, DepthSeriesGroup, Group(map[]));
    RunUnique(n1, Realslices, VDBase, num, LayerCount(n1));
  }

  /** The stack indices [0], [1], ..., [num - 1] reach num - 1. */
  lemma {:induction false} StackColumnMax(num: nat)
    requires num > 0
    ensures ColumnMax(StackIndices(num), 0) == num - 1
  {
    assert StackIndices(num)[..num - 1] == StackIndices(num - 1);
    if num > 1 {
      StackColumnMax(num - 1);
    }
  }

  /** The virtual dataset is the realslice shape with one more axis of
      length num, and member i is realslice i at depth position i. */
  lemma StackShape(nodes: map<Path, Node>, fileName: string, num: nat)
    requires LayersReadable(nodes, num) && num > 0
    ensures (ReadablePaths(nodes, num);
             var v := Stacked(nodes, fileName, num)[DepthSeriesGroup + ["supergroup"]];
             && v.shape == nodes[RealslicePath(0)].shape + [num]
             && v.contents.Mapped? && |v.contents.sources| == num
             && forall i :: 0 <= i < num ==>
                  && v.contents.sources[i].srcPath == RealslicePath(i)
                  && v.contents.sources[i].offset == Origin(|nodes[RealslicePath(0)].shape|) + [i])
  {
    ReadablePaths(nodes, num);
    StackColumnMax(num);
    assert LayerReadable(nodes, 0);
    var shape0 := nodes[RealslicePath(0)].shape;
    assert Extent(shape0, StackIndices(num), 1) == shape0 + [num];
  }

  /** The rest of depthSeriesSG, once vd_depth_series is new and the
      layers are gathered: write the virtual dataset, then configure the
      supergroup. */
  method WriteStack(file: H5File, num: nat, datasets: seq<Path>, indices: seq<seq<nat>>, depths: seq<real>)
    returns (ok: bool)
    requires file.Valid() && EmptyDepthSeries(file.nodes) && ChildNamesFit(file.nodes, LayerGroup(0))
    requires num > 0 && LayersReadable(file.nodes, num)
    requires datasets == RealslicePaths(num) && indices == StackIndices(num) && depths == Depths(file.nodes, num)
    modifies file
    ensures file.Valid()
    ensures ok == (ReadablePaths(old(file.nodes), num);
                   && SameSizes(old(file.nodes), RealslicePaths(num))
                   && DimsStored(old(file.nodes), LayerGroup(0), DimCount(old(file.nodes), LayerGroup(0))))
    ensures ok ==> file.nodes == StackResult(old(file.nodes), file.fileName, num)
  {
    ghost var n1 := file.nodes;
    ReadablePaths(n1, num);
    ok := WriteVirtualDataSet(file, DepthSeriesGroup, "supergroup", datasets, indices);
    if !ok {
      return;
    }
    ghost var n2 := file.nodes;
    ghost var v := VirtualNode(n1, file.fileName, datasets, indices);
    assert Step(n1, n2, DepthSeriesGroup + ["supergroup"], v);
    ReadableAlike(n1, n2, DepthSeriesGroup + ["supergroup"], v, 0);
    ChildNamesAlike(n1, n2, DepthSeriesGroup + ["supergroup"], v);
    ConfigurableIff(n1, n2, v);
    ok := ConfigureSupergroup(file, DepthSeriesGroup, LayerGroup(0), [depths], ["Depth"], ["[\U{00C5}]"]);
  }

  /** depthSeriesSG: vd_depth_series is created under supergroups, its
      virtual dataset stacks every realslice, and the supergroup is
      configured from layer 0 with the output depths as sgdim1. */
  method DepthSeriesSG(file: H5File) returns (ok: bool)
    requires file.Valid() && ChildNamesFit(file.nodes, LayerGroup(0))
    modifies file
    ensures file.Valid()
    ensures ok == DepthSeriesReady(old(file.nodes))
    ensures ok ==> file.nodes == DepthSeriesResult(old(file.nodes), file.fileName)
  {
    ghost var n0 := file.nodes;
    var num;
    ok, num := OpenDepthSeries(file);
    if !ok {
      return;
    }
    ghost var n1 := file.nodes;
    assert Step(n0, n1, DepthSeriesGroup, Group(map[]));
    var datasets, indices, depths;
    ok, datasets, indices, depths := GatherLayers(file, num);
    LayersReadableAlike(n0, n1, DepthSeriesGroup, Group(map[]), num);
    if !ok || num == 0 {
      return false;
    }
    SizesAlike(n0, n1, DepthSeriesGroup, Group(map[]), num);
    DimsStoredAlike(n0, n1, DepthSeriesGroup, Group(map[]));
    ChildNamesAlike(n0, n1, DepthSeriesGroup, Group(map[]));
    forall c
      ensures DepthSeriesGroup + [c] !in n1
    {
      ChildOfAbsent(n0, DepthSeriesGroup, c);
    }
    ok := WriteStack(file, num, datasets, indices, depths);
  }
}
