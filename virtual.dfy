/** Virtual aggregation: writeVirtualDataSet stacks source datasets of one
    shape along new trailing axes, copyDataSet copies a stored dataset with
    its attributes, configureSupergroup turns a group into an EMD
    supergroup, and depthSeriesSG stacks the virtual-detector realslices
    of every output depth. */
module Virtual {
  import opened Naming
  import opened Hyperslab
  import opened Container
  import opened Layout
  import opened Counting
  import opened Setup

  // ---------------------------------------------------------------------
  // writeVirtualDataSet: the extent and the mapping

  /** Every index tuple has at least newRank entries. */
  predicate IndexRows(indices: seq<seq<nat>>, newRank: nat) {
    forall i :: 0 <= i < |indices| ==> newRank <= |indices[i]|
  }

  /** max_dims[j] after the scan: the largest j-th index, from 0. */
  function ColumnMax(indices: seq<seq<nat>>, j: nat): nat
    requires IndexRows(indices, j + 1)
  {
    if indices == [] then 0
    else
      var m := ColumnMax(indices[..|indices| - 1], j);
      var x := indices[|indices| - 1][j];
      if m < x then x else m
  }

  /** The largest j-th index bounds every member's and is one of them. */
  lemma {:induction false} ColumnMaxIsMax(indices: seq<seq<nat>>, j: nat)
    requires IndexRows(indices, j + 1)
    ensures forall i :: 0 <= i < |indices| ==> indices[i][j] <= ColumnMax(indices, j)
    ensures |indices| > 0 ==> exists i :: 0 <= i < |indices| && indices[i][j] == ColumnMax(indices, j)
  {
    if indices != [] {
      var init := indices[..|indices| - 1];
      ColumnMaxIsMax(init, j);
      assert forall i :: 0 <= i < |init| ==> init[i] == indices[i];
      if init != [] && ColumnMax(init, j) >= indices[|indices| - 1][j] {
        var i :| 0 <= i < |init| && init[i][j] == ColumnMax(init, j);
        assert indices[i][j] == ColumnMax(indices, j);
      }
    }
  }

  function Ones(n: nat): (z: seq<nat>)
    ensures |z| == n && forall a :: 0 <= a < n ==> z[a] == 1
  {
    seq(n, _ => 1)
  }

  /** mdims: the source extent followed by max + 1 along every new axis. */
  function Extent(shape0: seq<nat>, indices: seq<seq<nat>>, newRank: nat): (e: seq<nat>)
    requires IndexRows(indices, newRank)
    ensures |e| == |shape0| + newRank
  {
    shape0 + seq(newRank, j requires 0 <= j < newRank => ColumnMax(indices, j) + 1)
  }

  /** mdims_ind: the source extent followed by 1 along every new axis. */
  function Block(shape0: seq<nat>, newRank: nat): (b: seq<nat>)
    ensures |b| == |shape0| + newRank
  {
    shape0 + Ones(newRank)
  }

  /** offset for member i: zero along the source axes, its indices along
      the new ones. */
  function MemberOffset(rank: nat, index: seq<nat>, newRank: nat): (o: seq<nat>)
    requires newRank <= |index|
    ensures |o| == rank + newRank
  {
    Origin(rank) + index[..newRank]
  }

  /** The mapping of every member, in order. */
  function Sources(nodes: map<Path, Node>, fileName: string, datasets: seq<Path>, indices: seq<seq<nat>>): (s: seq<VirtualSource>)
    requires 0 < |datasets| <= |indices| && IndexRows(indices, |indices[0]|)
    requires forall i :: 0 <= i < |datasets| ==> IsDataSet(nodes, datasets[i])
    ensures |s| == |datasets|
  {
    assert IsDataSet(nodes, datasets[0]);
    var shape0 := nodes[datasets[0]].shape;
    var newRank := |indices[0]|;
    seq(|datasets|, i requires 0 <= i < |datasets| =>
      assert IsDataSet(nodes, datasets[i]);
      VirtualSource(fileName, datasets[i], nodes[datasets[i]].shape,
                    MemberOffset(|shape0|, indices[i], newRank), Block(shape0, newRank)))
  }

  /** The virtual dataset: the first member's element type, the enlarged
      extent, and the mapping of every member. */
  function VirtualNode(nodes: map<Path, Node>, fileName: string, datasets: seq<Path>, indices: seq<seq<nat>>): (n: Node)
    requires 0 < |datasets| <= |indices| && IndexRows(indices, |indices[0]|)
    requires forall i :: 0 <= i < |datasets| ==> IsDataSet(nodes, datasets[i])
    ensures n.DataSet? && NodeOK(n)
  {
    assert IsDataSet(nodes, datasets[0]);
    DataSet(nodes[datasets[0]].dtype, Extent(nodes[datasets[0]].shape, indices, |indices[0]|),
            Mapped(Sources(nodes, fileName, datasets, indices)), map[])
  }

  /** H5Pset_virtual: every source selection has as many elements as the
      selection of extent mdims_ind it is mapped to. */
  ghost predicate SameSizes(nodes: map<Path, Node>, datasets: seq<Path>)
    requires forall i :: 0 <= i < |datasets| ==> IsDataSet(nodes, datasets[i])
  {
    forall i :: 0 <= i < |datasets| ==> IsDataSet(nodes, datasets[i]) && IsDataSet(nodes, datasets[0]) && Product(nodes[datasets[i]].shape) == Product(nodes[datasets[0]].shape)
  }

  lemma {:induction false} ProductOnes(s: seq<nat>, n: nat)
    ensures Product(s + Ones(n)) == Product(s)
  {
    if n > 0 {
      ProductOnes(s, n - 1);
      assert (s + Ones(n))[..|s| + n - 1] == s + Ones(n - 1);
    } else {
      assert s + Ones(n) == s;
    }
  }

  /** Every member's block lies inside the virtual extent. */
  lemma BlockInside(shape0: seq<nat>, indices: seq<seq<nat>>, newRank: nat, i: nat)
    requires IndexRows(indices, newRank) && i < |indices|
    ensures SlabFits(Extent(shape0, indices, newRank), MemberOffset(|shape0|, indices[i], newRank), Block(shape0, newRank))
  {
    var e := Extent(shape0, indices, newRank);
    var o := MemberOffset(|shape0|, indices[i], newRank);
    var b := Block(shape0, newRank);
    forall a | 0 <= a < |e|
      ensures o[a] + b[a] <= e[a]
    {
      if a >= |shape0| {
        ColumnMaxIsMax(indices, a - |shape0|);
      }
    }
  }

  /** The extent is no larger than needed: along every new axis some index
      tuple reaches its last position. */
  lemma ExtentTight(shape0: seq<nat>, indices: seq<seq<nat>>, newRank: nat, j: nat)
    requires IndexRows(indices, newRank) && |indices| > 0 && j < newRank
    ensures exists i :: 0 <= i < |indices|
              && MemberOffset(|shape0|, indices[i], newRank)[|shape0| + j] + 1 == Extent(shape0, indices, newRank)[|shape0| + j]
  {
    ColumnMaxIsMax(indices, j);
    var i :| 0 <= i < |indices| && indices[i][j] == ColumnMax(indices, j);
    assert MemberOffset(|shape0|, indices[i], newRank)[|shape0| + j] == indices[i][j];
  }

  /** Point c of the virtual extent is seen through the block at offset. */
  predicate InBlock(c: seq<nat>, offset: seq<nat>, block: seq<nat>)
    requires |offset| == |c| && |block| == |c|
  {
    forall a :: 0 <= a < |c| ==> offset[a] <= c[a] < offset[a] + block[a]
  }

  /** Members with different index tuples map disjoint blocks. */
  lemma BlocksDisjoint(shape0: seq<nat>, indices: seq<seq<nat>>, newRank: nat, i: nat, k: nat, c: seq<nat>)
    requires IndexRows(indices, newRank) && i < |indices| && k < |indices|
    requires |c| == |shape0| + newRank
    requires InBlock(c, MemberOffset(|shape0|, indices[i], newRank), Block(shape0, newRank))
    requires InBlock(c, MemberOffset(|shape0|, indices[k], newRank), Block(shape0, newRank))
    ensures indices[i][..newRank] == indices[k][..newRank]
  {
    var oi := MemberOffset(|shape0|, indices[i], newRank);
    var ok := MemberOffset(|shape0|, indices[k], newRank);
    forall j | 0 <= j < newRank
      ensures indices[i][j] == indices[k][j]
    {
      var a := |shape0| + j;
      assert oi[a] <= c[a] < oi[a] + 1;
      assert ok[a] <= c[a] < ok[a] + 1;
    }
  }

  /** The block of a member holds exactly as many elements as its source. */
  lemma BlockSize(shape0: seq<nat>, newRank: nat)
    ensures Product(Block(shape0, newRank)) == Product(shape0)
  {
    ProductOnes(shape0, newRank);
  }

  /** The scan of writeVirtualDataSet filling max_dims. */
  method MaxDims(indices: seq<seq<nat>>, newRank: nat) returns (maxDims: array<nat>)
    requires IndexRows(indices, newRank)
    ensures fresh(maxDims) && maxDims.Length == newRank
    ensures forall j :: 0 <= j < newRank ==> maxDims[j] == ColumnMax(indices, j)
  {
    maxDims := new nat[newRank](_ => 0);
    var i := 0;
    while i < |indices|
      invariant 0 <= i <= |indices|
      invariant forall j :: 0 <= j < newRank ==> maxDims[j] == ColumnMax(indices[..i], j)
    {
      ghost var before := indices[..i];
      ghost var after := indices[..i + 1];
      assert after[..|after| - 1] == before;
      var j := 0;
      while j < newRank
        invariant 0 <= j <= newRank
        invariant forall c :: 0 <= c < j ==> maxDims[c] == ColumnMax(after, c)
        invariant forall c :: j <= c < newRank ==> maxDims[c] == ColumnMax(before, c)
      {
        maxDims[j] := if maxDims[j] < indices[i][j] then indices[i][j] else maxDims[j];
        j := j + 1;
      }
      i := i + 1;
    }
    assert indices[..i] == indices;
  }

  /** The dimension loops of writeVirtualDataSet filling mdims and
      mdims_ind. */
  method VirtualDims(shape0: seq<nat>, indices: seq<seq<nat>>, newRank: nat) returns (mdims: array<nat>, mdimsInd: array<nat>)
    requires IndexRows(indices, newRank)
    ensures fresh(mdims) && fresh(mdimsInd)
    ensures mdims[..] == Extent(shape0, indices, newRank)
    ensures mdimsInd[..] == Block(shape0, newRank)
  {
    var maxDims := MaxDims(indices, newRank);
    var rank := |shape0|;
    mdims := new nat[rank + newRank];
    mdimsInd := new nat[rank + newRank];
    var a := 0;
    while a < rank
      modifies mdims, mdimsInd
      invariant 0 <= a <= rank
      invariant forall b :: 0 <= b < a ==> mdims[b] == shape0[b] && mdimsInd[b] == shape0[b]
    {
      mdims[a], mdimsInd[a] := shape0[a], shape0[a];
      a := a + 1;
    }
    while a < rank + newRank
      modifies mdims, mdimsInd
      invariant rank <= a <= rank + newRank
      invariant forall b :: 0 <= b < rank ==> mdims[b] == shape0[b] && mdimsInd[b] == shape0[b]
      invariant forall b :: rank <= b < a ==> mdims[b] == maxDims[b - rank] + 1 && mdimsInd[b] == 1
    {
      mdims[a], mdimsInd[a] := maxDims[a - rank] + 1, 1;
      a := a + 1;
    }
  }

  /** The offset loop for one member. */
  method SetOffset(offset: array<nat>, rank: nat, index: seq<nat>, newRank: nat)
    requires offset.Length == rank + newRank && newRank <= |index|
    requires forall c :: 0 <= c < rank ==> offset[c] == 0
    modifies offset
    ensures offset[..] == MemberOffset(rank, index, newRank)
  {
    var b := rank;
    while b < rank + newRank
      invariant rank <= b <= rank + newRank
      invariant forall c :: 0 <= c < rank ==> offset[c] == 0
      invariant forall c :: rank <= c < b ==> offset[c] == index[c - rank]
    {
      offset[b] := index[b - rank];
      b := b + 1;
    }
  }

  /** The mapping loop of writeVirtualDataSet: one setVirtual per member,
      failing at the first member whose element count differs. */
  method MapMembers(nodes: map<Path, Node>, fileName: string, datasets: seq<Path>, indices: seq<seq<nat>>, block: seq<nat>)
    returns (ok: bool, sources: seq<VirtualSource>)
    requires 0 < |datasets| <= |indices| && IndexRows(indices, |indices[0]|)
    requires forall i :: 0 <= i < |datasets| ==> IsDataSet(nodes, datasets[i])
    requires IsDataSet(nodes, datasets[0]) && block == Block(nodes[datasets[0]].shape, |indices[0]|)
    ensures ok == SameSizes(nodes, datasets)
    ensures ok ==> sources == Sources(nodes, fileName, datasets, indices)
  {
    var shape0 := nodes[datasets[0]].shape;
    var rank, newRank := |shape0|, |indices[0]|;
    BlockSize(shape0, newRank);
    var offset := new nat[rank + newRank](_ => 0);
    sources := [];
    ghost var spec := Sources(nodes, fileName, datasets, indices);
    var i := 0;
    while i < |datasets|
      invariant 0 <= i <= |datasets|
      invariant forall b :: 0 <= b < rank ==> offset[b] == 0
      invariant sources == spec[..i]
      invariant forall m :: 0 <= m < i ==> Product(nodes[datasets[m]].shape) == Product(shape0)
    {
      var path := datasets[i];
      assert IsDataSet(nodes, path);
      var srcShape := nodes[path].shape;
      SetOffset(offset, rank, indices[i], newRank);
      if Product(srcShape) != Product(block) {
        ok := false;
        return;
      }
      sources := sources + [VirtualSource(fileName, path, srcShape, offset[..], block)];
      i := i + 1;
    }
    ok := true;
    assert sources == spec;
  }

  /** writeVirtualDataSet. Every member is mapped in order; a member whose
      element count differs from the block fails the mapping, and an
      existing name fails the creation, both before anything is written. */
  method WriteVirtualDataSet(file: H5File, group: Path, dsetName: string, datasets: seq<Path>, indices: seq<seq<nat>>)
    returns (ok: bool)
    requires file.Valid()
    requires 0 < |datasets| <= |indices| && IndexRows(indices, |indices[0]|)
    requires forall i :: 0 <= i < |datasets| ==> IsDataSet(file.nodes, datasets[i])
    modifies file
    ensures file.Valid()
    ensures ok == (CanCreate(old(file.nodes), group, dsetName) && SameSizes(old(file.nodes), datasets))
    ensures file.nodes == if ok then old(file.nodes)[group + [dsetName] := VirtualNode(old(file.nodes), file.fileName, datasets, indices)]
                          else old(file.nodes)
  {
    assert IsDataSet(file.nodes, datasets[0]);
    var shape0 := file.nodes[datasets[0]].shape;
    var mdims, mdimsInd := VirtualDims(shape0, indices, |indices[0]|);
    var mapped, sources := MapMembers(file.nodes, file.fileName, datasets, indices, mdimsInd[..]);
    if !mapped {
      ok := false;
      return;
    }
    ok := file.CreateDataSet(group, dsetName,
      DataSet(file.nodes[datasets[0]].dtype, mdims[..], Mapped(sources), map[]));
  }

  // ---------------------------------------------------------------------
  // copyDataSet

  /** Every object's absolute name fits in a std::string, so none is as
      long as npos. */
  ghost predicate NamesFit(nodes: map<Path, Node>) {
    forall p | p in nodes :: |PathName(p)| < NPOS
  }

  /** The absolute names of the objects directly under g fit in a
      std::string. */
  ghost predicate ChildNamesFit(nodes: map<Path, Node>, g: Path) {
    forall c | g + [c] in nodes :: |PathName(g + [c])| < NPOS
  }

  /** A stored dataset: its elements can be read back. */
  predicate IsStored(nodes: map<Path, Node>, p: Path) {
    IsDataSet(nodes, p) && !nodes[p].contents.Mapped?
  }

  lemma LastNameValid(nodes: map<Path, Node>, p: Path)
    requires WellFormed(nodes) && p in nodes && p != []
    ensures ValidName(p[|p| - 1])
  {
    assert p == p[..|p| - 1] + [p[|p| - 1]];
  }

  /** copyDataSet: a dataset of the same name (the last component of the
      source's path), extent, element type, contents and attributes under
      the target group. */
  method CopyDataSet(file: H5File, target: Path, src: Path) returns (ok: bool)
    requires file.Valid() && IsDataSet(file.nodes, src) && |PathName(src)| < NPOS
    modifies file
    ensures file.Valid()
    ensures ok == (IsStored(old(file.nodes), src) && CanCreate(old(file.nodes), target, src[|src| - 1]))
    ensures file.nodes == if ok then old(file.nodes)[target + [src[|src| - 1]] := old(file.nodes)[src]]
                          else old(file.nodes)
  {
    LastNameValid(file.nodes, src);
    ReducedNameOfPath(src);
    var dsName := ReducedDataSetName(PathName(src));
    if file.nodes[src].contents.Mapped? {
      ok := false;
      return;
    }
    ok := file.CreateDataSet(target, dsName, file.nodes[src]);
  }

  // ---------------------------------------------------------------------
  // configureSupergroup

  /** The length of the run dim1, dim2, ... under g: what countDimensions
      returns. */
  ghost function DimCount(nodes: map<Path, Node>, g: Path): (k: nat)
    ensures DimRun(nodes, g, "dim", k)
  {
    DimRunExists(nodes, g, "dim");
    var k :| DimRun(nodes, g, "dim", k);
    k
  }

  lemma DimRunExists(nodes: map<Path, Node>, g: Path, base: string)
    ensures exists k :: DimRun(nodes, g, base, k)
  {
    var count := 1;
    while g + [DimName(base, count)] in nodes
      invariant 1 <= count <= |nodes| + 1
      invariant DimPresent(nodes, g, base, count - 1)
      decreases |nodes| + 1 - count
    {
      DimPresentBound(nodes, g, base, count);
      count := count + 1;
    }
    assert DimRun(nodes, g, base, count - 1);
  }

  lemma DimNameValid(base: string, k: nat)
    requires ValidName(base)
    ensures ValidName(DimName(base, k))
  {
  }

  /** A dimK name is never an sgdimK name. */
  lemma DimNotSgDim(i: nat, j: nat)
    ensures DimName("dim", i) != DimName("sgdim", j)
  {
    assert DimName("dim", i)[0] == 'd';
    assert DimName("sgdim", j)[0] == 's';
  }

  /** The attributes a supergroup gains. */
  function SupergroupAttrs(a: Attrs): Attrs {
    a["emd_group_type" := IntAttr(3)]["metadata" := IntAttr(0)]
  }

  /** dim1 .. dimk of example, copied under sg. */
  ghost function CopiedDims(nodes: map<Path, Node>, sg: Path, example: Path, k: nat): map<Path, Node>
    requires DimPresent(nodes, example, "dim", k)
  {
    if k == 0 then map[]
    else CopiedDims(nodes, sg, example, k - 1)[sg + [DimName("dim", k)] := nodes[example + [DimName("dim", k)]]]
  }

  /** sgdim1 .. sgdimn: the supergroup axes with their names and units. */
  function SgDims(sg: Path, sgdims: seq<seq<real>>, names: seq<string>, units: seq<string>, n: nat): map<Path, Node>
    requires n <= |sgdims| && n <= |names| && n <= |units|
  {
    if n == 0 then map[]
    else SgDims(sg, sgdims, names, units, n - 1)[sg + [DimName("sgdim", n)] := DimNode(sgdims[n - 1], names[n - 1], units[n - 1])]
  }

  lemma {:induction false} CopiedDimsKeys(nodes: map<Path, Node>, sg: Path, example: Path, k: nat, p: Path)
    requires DimPresent(nodes, example, "dim", k)
    ensures p in CopiedDims(nodes, sg, example, k) <==> exists j :: 1 <= j <= k && p == sg + [DimName("dim", j)]
  {
    if k > 0 {
      CopiedDimsKeys(nodes, sg, example, k - 1, p);
    }
  }

  lemma {:induction false} SgDimsKeys(sg: Path, sgdims: seq<seq<real>>, names: seq<string>, units: seq<string>, n: nat, p: Path)
    requires n <= |sgdims| && n <= |names| && n <= |units|
    ensures p in SgDims(sg, sgdims, names, units, n) <==> exists j :: 1 <= j <= n && p == sg + [DimName("sgdim", j)]
  {
    if n > 0 {
      SgDimsKeys(sg, sgdims, names, units, n - 1, p);
    }
  }

  /** Copies depend only on the copied datasets. */
  lemma {:induction false} CopiedDimsSame(a: map<Path, Node>, b: map<Path, Node>, sg: Path, example: Path, k: nat)
    requires DimPresent(a, example, "dim", k) && DimPresent(b, example, "dim", k)
    requires forall i :: 1 <= i <= k ==> a[example + [DimName("dim", i)]] == b[example + [DimName("dim", i)]]
    ensures CopiedDims(a, sg, example, k) == CopiedDims(b, sg, example, k)
  {
    if k > 0 {
      CopiedDimsSame(a, b, sg, example, k - 1);
    }
  }

  /** dimI of example can be copied under sg. */
  ghost predicate DimCopyable(nodes: map<Path, Node>, sg: Path, example: Path, i: nat) {
    IsStored(nodes, example + [DimName("dim", i)]) && sg + [DimName("dim", i)] !in nodes
  }

  /** dim1 .. dimk of example can all be copied under sg. */
  ghost predicate DimsCopyable(nodes: map<Path, Node>, sg: Path, example: Path, k: nat) {
    forall i :: 1 <= i <= k ==> DimCopyable(nodes, sg, example, i)
  }

  lemma DimsCopyableStep(nodes: map<Path, Node>, sg: Path, example: Path, k: nat)
    requires DimsCopyable(nodes, sg, example, k) && DimCopyable(nodes, sg, example, k + 1)
    ensures DimsCopyable(nodes, sg, example, k + 1)
  {
  }

  /** The names sgdim1 .. sgdimn are free under sg. */
  ghost predicate SgDimsFree(nodes: map<Path, Node>, sg: Path, n: nat) {
    forall i :: 1 <= i <= n ==> sg + [DimName("sgdim", i)] !in nodes
  }

  lemma SgDimsFreeStep(nodes: map<Path, Node>, sg: Path, n: nat)
    requires SgDimsFree(nodes, sg, n) && sg + [DimName("sgdim", n + 1)] !in nodes
    ensures SgDimsFree(nodes, sg, n + 1)
  {
  }

  /** Every call of configureSupergroup succeeds: the two attributes are
      new, the k dimensions of example are stored datasets whose names are
      free under sg, and so are the n sgdim names. */
  ghost predicate SupergroupReady(nodes: map<Path, Node>, sg: Path, example: Path, k: nat, n: nat)
    requires sg in nodes
  {
    && "emd_group_type" !in nodes[sg].attrs && "metadata" !in nodes[sg].attrs
    && DimsCopyable(nodes, sg, example, k)
    && SgDimsFree(nodes, sg, n)
  }

  /** The state before copying dimI + 1: the source is untouched, the
      group is still a group and the target name is free exactly when it
      was before. */
  lemma CopyStep(start: map<Path, Node>, sg: Path, example: Path, i: nat)
    requires IsGroup(start, sg) && DimPresent(start, example, "dim", i + 1)
    ensures var now := start + CopiedDims(start, sg, example, i);
            var src := example + [DimName("dim", i + 1)];
            && src in now && now[src] == start[src]
            && IsGroup(now, sg)
            && (sg + [DimName("dim", i + 1)] in now <==> sg + [DimName("dim", i + 1)] in start)
            && now[sg + [DimName("dim", i + 1)] := start[src]] == start + CopiedDims(start, sg, example, i + 1)
  {
    var src := example + [DimName("dim", i + 1)];
    var dst := sg + [DimName("dim", i + 1)];
    CopiedDimsKeys(start, sg, example, i, src);
    CopiedDimsKeys(start, sg, example, i, dst);
    CopiedDimsKeys(start, sg, example, i, sg);
    if src in CopiedDims(start, sg, example, i) {
      var j :| 1 <= j <= i && src == sg + [DimName("dim", j)];
      SnocInjective(example, DimName("dim", i + 1), sg, DimName("dim", j));
      DimNameInjective("dim", i + 1, j);
    }
    if dst in CopiedDims(start, sg, example, i) {
      var j :| 1 <= j <= i && dst == sg + [DimName("dim", j)];
      SnocInjective(sg, DimName("dim", i + 1), sg, DimName("dim", j));
      DimNameInjective("dim", i + 1, j);
    }
    assert sg !in CopiedDims(start, sg, example, i);
  }

  /** openDataSet("dim" + (i + 1)) and its copy, in the copy loop. */
  method CopyDim(file: H5File, sg: Path, example: Path, i: nat, ghost start: map<Path, Node>) returns (copied: bool)
    requires file.Valid() && IsGroup(start, sg)
    requires DimPresent(start, example, "dim", i + 1)
    requires |PathName(example + [DimName("dim", i + 1)])| < NPOS
    requires file.nodes == start + CopiedDims(start, sg, example, i)
    modifies file
    ensures file.Valid()
    ensures copied == DimCopyable(start, sg, example, i + 1)
    ensures copied ==> file.nodes == start + CopiedDims(start, sg, example, i + 1)
  {
    CopyStep(start, sg, example, i);
    var src := example + [DimName("dim", i + 1)];
    if !(file.NameExists(src) && file.nodes[src].DataSet?) {
      copied := false;
      return;
    }
    DimNameValid("dim", i + 1);
    copied := CopyDataSet(file, sg, src);
    assert src[|src| - 1] == DimName("dim", i + 1);
  }

  /** The copy loop of configureSupergroup. */
  method CopyDims(file: H5File, sg: Path, example: Path, k: nat) returns (ok: bool)
    requires file.Valid() && IsGroup(file.nodes, sg)
    requires DimPresent(file.nodes, example, "dim", k)
    requires forall i :: 1 <= i <= k ==> |PathName(example + [DimName("dim", i)])| < NPOS
    modifies file
    ensures file.Valid()
    ensures ok == DimsCopyable(old(file.nodes), sg, example, k)
    ensures ok ==> file.nodes == old(file.nodes) + CopiedDims(old(file.nodes), sg, example, k)
  {
    ghost var start := file.nodes;
    var i := 0;
    while i < k
      invariant 0 <= i <= k
      invariant file.Valid()
      invariant file.nodes == start + CopiedDims(start, sg, example, i)
      invariant DimsCopyable(start, sg, example, i)
    {
      var copied := CopyDim(file, sg, example, i, start);
      if !copied {
        ok := false;
        return;
      }
      DimsCopyableStep(start, sg, example, i);
      i := i + 1;
    }
    ok := true;
  }

  lemma SgDimStep(start: map<Path, Node>, sg: Path, sgdims: seq<seq<real>>, names: seq<string>, units: seq<string>, i: nat)
    requires IsGroup(start, sg) && i < |sgdims| && |sgdims| <= |names| && |sgdims| <= |units|
    ensures var now := start + SgDims(sg, sgdims, names, units, i);
            && IsGroup(now, sg)
            && (sg + [DimName("sgdim", i + 1)] in now <==> sg + [DimName("sgdim", i + 1)] in start)
            && now[sg + [DimName("sgdim", i + 1)] := DimNode(sgdims[i], names[i], units[i])]
               == start + SgDims(sg, sgdims, names, units, i + 1)
  {
    var dst := sg + [DimName("sgdim", i + 1)];
    SgDimsKeys(sg, sgdims, names, units, i, dst);
    SgDimsKeys(sg, sgdims, names, units, i, sg);
    if dst in SgDims(sg, sgdims, names, units, i) {
      var j :| 1 <= j <= i && dst == sg + [DimName("sgdim", j)];
      SnocInjective(sg, DimName("sgdim", i + 1), sg, DimName("sgdim", j));
      DimNameInjective("sgdim", i + 1, j);
    }
    assert sg !in SgDims(sg, sgdims, names, units, i);
  }

  /** One createDataSet of the sgdim loop. */
  method WriteSgDim(file: H5File, sg: Path, sgdims: seq<seq<real>>, names: seq<string>, units: seq<string>, i: nat,
                    ghost start: map<Path, Node>)
    returns (created: bool)
    requires file.Valid() && IsGroup(start, sg)
    requires i < |sgdims| && |names| >= |sgdims| && |units| >= |sgdims|
    requires file.nodes == start + SgDims(sg, sgdims, names, units, i)
    modifies file
    ensures file.Valid()
    ensures created == (sg + [DimName("sgdim", i + 1)] !in start)
    ensures created ==> file.nodes == start + SgDims(sg, sgdims, names, units, i + 1)
  {
    SgDimStep(start, sg, sgdims, names, units, i);
    DimNameValid("sgdim", i + 1);
    created := file.CreateDataSet(sg, DimName("sgdim", i + 1), DimNode(sgdims[i], names[i], units[i]));
  }

  /** The sgdim loop of configureSupergroup. */
  method WriteSgDims(file: H5File, sg: Path, sgdims: seq<seq<real>>, names: seq<string>, units: seq<string>) returns (ok: bool)
    requires file.Valid() && IsGroup(file.nodes, sg)
    requires |names| >= |sgdims| && |units| >= |sgdims|
    modifies file
    ensures file.Valid()
    ensures ok == SgDimsFree(old(file.nodes), sg, |sgdims|)
    ensures ok ==> file.nodes == old(file.nodes) + SgDims(sg, sgdims, names, units, |sgdims|)
  {
    ghost var start := file.nodes;
    var i := 0;
    while i < |sgdims|
      invariant 0 <= i <= |sgdims|
      invariant file.Valid()
      invariant file.nodes == start + SgDims(sg, sgdims, names, units, i)
      invariant SgDimsFree(start, sg, i)
    {
      var created := WriteSgDim(file, sg, sgdims, names, units, i, start);
      if !created {
        ok := false;
        return;
      }
      SgDimsFreeStep(start, sg, i);
      i := i + 1;
    }
    ok := true;
  }

  /** What configureSupergroup makes of the file: the two attributes on
      sg, the copies of example's dimensions, and the supergroup axes. */
  ghost function Supergroup(nodes: map<Path, Node>, sg: Path, example: Path, sgdims: seq<seq<real>>,
                            names: seq<string>, units: seq<string>): map<Path, Node>
    requires sg in nodes && |names| >= |sgdims| && |units| >= |sgdims|
  {
    var k := DimCount(nodes, example);
    nodes[sg := Group(SupergroupAttrs(nodes[sg].attrs))]
      + CopiedDims(nodes, sg, example, k)
      + SgDims(sg, sgdims, names, units, |sgdims|)
  }

  /** The attribute writes change no path and no dataset. */
  lemma AfterAttrs(n0: map<Path, Node>, n1: map<Path, Node>, sg: Path, example: Path, k: nat, n: nat)
    requires IsGroup(n0, sg) && n1 == n0[sg := Group(SupergroupAttrs(n0[sg].attrs))]
    requires DimRun(n0, example, "dim", k) && ChildNamesFit(n0, example)
    ensures DimRun(n1, example, "dim", k) && IsGroup(n1, sg)
    ensures forall i :: 1 <= i <= k ==> |PathName(example + [DimName("dim", i)])| < NPOS
    ensures DimsCopyable(n1, sg, example, k) <==> DimsCopyable(n0, sg, example, k)
    ensures DimsCopyable(n0, sg, example, k) ==> CopiedDims(n1, sg, example, k) == CopiedDims(n0, sg, example, k)
    ensures SgDimsFree(n1, sg, n) <==> SgDimsFree(n0, sg, n)
  {
    assert n1.Keys == n0.Keys;
    forall i | 1 <= i <= k
      ensures DimCopyable(n1, sg, example, i) <==> DimCopyable(n0, sg, example, i)
    {
      var src := example + [DimName("dim", i)];
      if src != sg {
        assert n1[src] == n0[src];
      }
    }
    if DimsCopyable(n0, sg, example, k) {
      forall i | 1 <= i <= k
        ensures n1[example + [DimName("dim", i)]] == n0[example + [DimName("dim", i)]]
      {
        assert DimCopyable(n0, sg, example, i);
      }
      CopiedDimsSame(n1, n0, sg, example, k);
    }
  }

  /** The copies take no sgdim name and leave sg a group. */
  lemma AfterCopies(n0: map<Path, Node>, n1: map<Path, Node>, sg: Path, example: Path, k: nat, n: nat)
    requires IsGroup(n0, sg) && DimPresent(n0, example, "dim", k)
    requires n1 == n0 + CopiedDims(n0, sg, example, k)
    ensures IsGroup(n1, sg)
    ensures SgDimsFree(n1, sg, n) <==> SgDimsFree(n0, sg, n)
  {
    CopiedDimsKeys(n0, sg, example, k, sg);
    forall i | 1 <= i <= n
      ensures sg + [DimName("sgdim", i)] !in CopiedDims(n0, sg, example, k)
    {
      var dst := sg + [DimName("sgdim", i)];
      CopiedDimsKeys(n0, sg, example, k, dst);
      if dst in CopiedDims(n0, sg, example, k) {
        var j :| 1 <= j <= k && dst == sg + [DimName("dim", j)];
        SnocInjective(sg, DimName("sgdim", i), sg, DimName("dim", j));
        DimNotSgDim(j, i);
      }
    }
  }

  /** configureSupergroup: emd_group_type = 3 and metadata = 0 on sg, then
      a copy of every dimension dim1 .. dimk of example (k as
      countDimensions finds it), then sgdim1 .. sgdimn with their values,
      names and units. It succeeds exactly when every call can. */
  method ConfigureSupergroup(file: H5File, sg: Path, example: Path, sgdims: seq<seq<real>>,
                             names: seq<string>, units: seq<string>) returns (ok: bool)
    requires file.Valid() && IsGroup(file.nodes, sg) && IsGroup(file.nodes, example)
    requires ChildNamesFit(file.nodes, example)
    requires |names| >= |sgdims| && |units| >= |sgdims|
    modifies file
    ensures file.Valid()
    ensures ok == SupergroupReady(old(file.nodes), sg, example, DimCount(old(file.nodes), example), |sgdims|)
    ensures ok ==> file.nodes == Supergroup(old(file.nodes), sg, example, sgdims, names, units)
  {
    ghost var n0 := file.nodes;
    ghost var k := DimCount(n0, example);
    ok := file.CreateAttribute(sg, "emd_group_type", IntAttr(3));
    if !ok {
      return;
    }
    ok := file.CreateAttribute(sg, "metadata", IntAttr(0));
    if !ok {
      return;
    }
    ghost var n1 := file.nodes;
    assert n1 == n0[sg := Group(SupergroupAttrs(n0[sg].attrs))];
    AfterAttrs(n0, n1, sg, example, k, |sgdims|);
    var numDims := CountDimensions(file, example, "dim");
    DimRunUnique(n1, example, "dim", numDims, k);
    ok := CopyDims(file, sg, example, numDims);
    if !ok {
      return;
    }
    ghost var n2 := file.nodes;
    AfterCopies(n1, n2, sg, example, k, |sgdims|);
    ok := WriteSgDims(file, sg, sgdims, names, units);
  }
}
