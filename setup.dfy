/** The setup functions of the output file: the fixed group skeleton, the
    per-depth result groups of the 4D, virtual-detector, annular (2D) and
    DPC outputs, the S-matrix group and the potential slices. */
module Setup {
  import opened Naming
  import opened Hyperslab
  import opened Container
  import opened Layout

  /** The simulation parameters the setup functions read. fftshift is
      defined outside the file, so the shifted axes are given as inputs;
      so is the restrided potential. */
  datatype Pars = Pars(
    xp: seq<real>, yp: seq<real>,               // probe positions
    depths: seq<real>,                          // output depth per layer
    qx: seq<real>, qy: seq<real>,               // reciprocal-space axes
    qxShifted: seq<real>, qyShifted: seq<real>, // fftshift(qx), fftshift(qy)
    crop4DOutput: bool, crop4Damax: real, lambda: real,
    multislice: bool,                           // algorithm == Multislice
    probeDimi: nat, probeDimj: nat,             // psiProbeInit extent
    Ndet: nat, detectorAngles: seq<real>,
    sDimi: nat, sDimj: nat, sDimk: nat,         // Scompact extent
    numberBeams: nat,
    imageSize0: nat, imageSize1: nat, pixelSize0: real, pixelSize1: real,
    numPlanes: nat, sliceThickness: real,
    fpFlag: int,
    restridedPot: seq<real>)                    // restride(pot, {2, 1, 0})

  const Simulation: Path := ["4DSTEM_simulation"]
  const Datacubes: Path := ["4DSTEM_simulation", "data", "datacubes"]
  const Realslices: Path := ["4DSTEM_simulation", "data", "realslices"]

  function Labels(name: string, units: string): Attrs {
    map["name" := StringAttr(name), "units" := StringAttr(units)]
  }

  /** A calibration axis: a one-dimensional float dataset holding the axis
      values, with its name and units. */
  function DimNode(xs: seq<real>, name: string, units: string): (d: Node)
    ensures d.DataSet? && NodeOK(d) && d.shape == [|xs|]
  {
    assert [|xs|][..0] == [] && Product([|xs|]) == Product([]) * |xs|;
    DataSet(Float, [|xs|], Floats(xs), Labels(name, units))
  }

  /** A primary dataset that is created but not written here: it holds the
      library's fill value. */
  function Primary(t: DType, shape: seq<nat>): (d: Node)
    ensures d.DataSet? && NodeOK(d) && d.shape == shape
  {
    DataSet(t, shape, Fill(t, Product(shape)), map[])
  }

  // ---------------------------------------------------------------------
  // setupOutputFile

  /** Version 0.5 of the EMD layout, group type 2 (the root of a simulation). */
  const SimulationAttrs: Attrs :=
    map["version_major" := IntAttr(0), "version_minor" := IntAttr(5), "emd_group_type" := IntAttr(2)]

  const Data: Path := ["4DSTEM_simulation", "data"]
  const Log: Path := ["4DSTEM_simulation", "log"]
  const Metadata: Path := ["4DSTEM_simulation", "metadata"]
  const Metadata0: Path := ["4DSTEM_simulation", "metadata", "metadata_0"]
  const Original: Path := ["4DSTEM_simulation", "metadata", "metadata_0", "original"]

  /** The data groups of the layout, in creation order. */
  const DataGroupNames: seq<string> :=
    ["datacubes", "diffractionslices", "realslices", "pointlists", "pointlistarrays", "supergroups"]

  /** The groups under original. */
  const OriginalGroupNames: seq<string> := ["shortlist", "all"]

  /** The metadata_0 groups after original. */
  const MetadataGroupNames: seq<string> := ["microscope", "sample", "user", "calibration", "comments"]

  /** Every group of the fixed skeleton with its attributes. */
  function SkeletonMap(): map<Path, Node> {
    map[Simulation := Group(SimulationAttrs)] + (DataMap() + MetadataMap())
  }

  /** data and the six data groups under it. */
  function DataMap(): map<Path, Node> {
    map[Data := Group(map[])] + ChildGroups(Data, DataGroupNames)
  }

  /** log, and the metadata tree of py4DSTEM version 0.4. */
  function MetadataMap(): map<Path, Node> {
    map[Log := Group(map[])] + (map[Metadata := Group(map[])] + Metadata0Map())
  }

  /** metadata_0 and the groups under it. */
  function Metadata0Map(): map<Path, Node> {
    map[Metadata0 := Group(map[])] + (OriginalMap() + ChildGroups(Metadata0, MetadataGroupNames))
  }

  /** original, shortlist and all. */
  function OriginalMap(): map<Path, Node> {
    map[Original := Group(map[])] + ChildGroups(Original, OriginalGroupNames)
  }

  /** Attribute-less groups under parent, one per name. */
  function ChildGroups(parent: Path, names: seq<string>): map<Path, Node> {
    if names == [] then map[]
    else ChildGroups(parent, names[..|names| - 1])[parent + [names[|names| - 1]] := Group(map[])]
  }

  /** The keys of ChildGroups are exactly parent + [name], name in names. */
  lemma {:induction false} ChildGroupsKeys(parent: Path, names: seq<string>, q: Path)
    ensures q in ChildGroups(parent, names) <==> |q| == |parent| + 1 && q[..|parent|] == parent && q[|parent|] in names
    ensures q in ChildGroups(parent, names) ==> ChildGroups(parent, names)[q] == Group(map[])
  {
    if names != [] {
      var k := |names| - 1;
      ChildGroupsKeys(parent, names[..k], q);
      assert names == names[..k] + [names[k]];
      if |q| == |parent| + 1 && q[..|parent|] == parent {
        assert q == parent + [q[|parent|]];
      }
    }
  }

  /** Creates an attribute-less group under parent for each name in turn. */
  method CreateGroups(file: H5File, parent: Path, names: seq<string>)
    requires file.Valid() && IsGroup(file.nodes, parent)
    requires forall i :: 0 <= i < |names| ==> ValidName(names[i])
    requires forall name :: name in names ==> parent + [name] !in file.nodes
    requires forall i, j :: 0 <= i < j < |names| ==> names[i] != names[j]
    modifies file
    ensures file.Valid()
    ensures file.nodes == old(file.nodes) + ChildGroups(parent, names)
  {
    var i := 0;
    while i < |names|
      invariant 0 <= i <= |names|
      invariant file.Valid() && IsGroup(file.nodes, parent)
      invariant file.nodes == old(file.nodes) + ChildGroups(parent, names[..i])
    {
      ChildFresh(old(file.nodes), parent, names, i);
      var created := file.CreateGroup(parent, names[i], map[]);
      assert created;
      ChildGroupsSnoc(old(file.nodes), parent, names, i);
      i := i + 1;
    }
    assert names[..i] == names;
  }

  /** The next name is free before its group is created. */
  lemma ChildFresh(start: map<Path, Node>, parent: Path, names: seq<string>, i: nat)
    requires i < |names| && parent + [names[i]] !in start
    requires forall j :: 0 <= j < i ==> names[j] != names[i]
    ensures parent + [names[i]] !in start + ChildGroups(parent, names[..i])
  {
    var q := parent + [names[i]];
    assert q[..|parent|] == parent && q[|parent|] == names[i];
    ChildGroupsKeys(parent, names[..i], q);
  }

  lemma ChildGroupsSnoc(start: map<Path, Node>, parent: Path, names: seq<string>, i: nat)
    requires i < |names|
    ensures (start + ChildGroups(parent, names[..i]))[parent + [names[i]] := Group(map[])]
            == start + ChildGroups(parent, names[..i + 1])
  {
    assert names[..i + 1][..i] == names[..i];
  }

  /** Creating k and then the entries rest is merging both into s. */
  lemma Insert<K, V>(s: map<K, V>, k: K, v: V, rest: map<K, V>)
    ensures s[k := v] + rest == s + (map[k := v] + rest)
  {
  }

  /** The skeleton's names are single link components. */
  lemma SkeletonNamesValid()
    ensures ValidName("4DSTEM_simulation") && ValidName("data") && ValidName("log")
    ensures ValidName("metadata") && ValidName("metadata_0") && ValidName("original")
    ensures forall i :: 0 <= i < |DataGroupNames| ==> ValidName(DataGroupNames[i])
    ensures forall i :: 0 <= i < |MetadataGroupNames| ==> ValidName(MetadataGroupNames[i])
    ensures forall i :: 0 <= i < |OriginalGroupNames| ==> ValidName(OriginalGroupNames[i])
  {
  }

  lemma DataNamesDistinct()
    ensures forall i, j :: 0 <= i < j < |DataGroupNames| ==> DataGroupNames[i] != DataGroupNames[j]
  {
  }

  lemma MetadataNamesDistinct()
    ensures forall i, j :: 0 <= i < j < |MetadataGroupNames| ==> MetadataGroupNames[i] != MetadataGroupNames[j]
  {
  }

  lemma OriginalNamesDistinct()
    ensures forall i, j :: 0 <= i < j < |OriginalGroupNames| ==> OriginalGroupNames[i] != OriginalGroupNames[j]
  {
  }

  /** setupOutputFile: the skeleton is created under a fresh
      4DSTEM_simulation group. When that group already exists the first
      createGroup throws and nothing is created. */
  method SetupOutputFile(file: H5File) returns (ok: bool)
    requires file.Valid()
    modifies file
    ensures file.Valid()
    ensures ok == (Simulation !in old(file.nodes))
    ensures file.nodes == if ok then old(file.nodes) + SkeletonMap() else old(file.nodes)
  {
    ghost var start := file.nodes;
    assert ValidName("4DSTEM_simulation") && [] + ["4DSTEM_simulation"] == Simulation;
    ok := file.CreateGroup([], "4DSTEM_simulation", SimulationAttrs);
    if !ok {
      return;
    }
    SkeletonFresh(start);
    CreateDataGroups(file);
    CreateMetadataGroups(file);
    SkeletonMerge(start);
  }

  /** Under a fresh simulation group, data, log and metadata are free. */
  lemma SkeletonFresh(start: map<Path, Node>)
    requires WellFormed(start) && Simulation !in start
    ensures Data !in start[Simulation := Group(SimulationAttrs)]
    ensures Log !in start[Simulation := Group(SimulationAttrs)] + DataMap()
    ensures Metadata !in start[Simulation := Group(SimulationAttrs)] + DataMap()
    ensures Simulation !in DataMap()
  {
    ChildGroupsKeys(Data, DataGroupNames, Simulation);
    NoDescendants(start, Simulation, ["data"]);
    NoDescendants(start, Simulation, ["log"]);
    NoDescendants(start, Simulation, ["metadata"]);
    assert Simulation + ["data"] == Data;
    assert Simulation + ["log"] == Log && Simulation + ["metadata"] == Metadata;
    DataMapKeys(Log);
    DataMapKeys(Metadata);
  }

  lemma SkeletonMerge(start: map<Path, Node>)
    ensures start[Simulation := Group(SimulationAttrs)] + DataMap() + MetadataMap() == start + SkeletonMap()
  {
    MergeAssoc(start[Simulation := Group(SimulationAttrs)], DataMap(), MetadataMap());
    Insert(start, Simulation, Group(SimulationAttrs), DataMap() + MetadataMap());
  }

  lemma DataMapKeys(q: Path)
    requires |q| == 2 && q[1] != "data"
    ensures q !in DataMap()
  {
    ChildGroupsKeys(Data, DataGroupNames, q);
  }

  /** The data group and its children, under an existing simulation group. */
  method CreateDataGroups(file: H5File)
    requires file.Valid() && IsGroup(file.nodes, Simulation) && Data !in file.nodes
    modifies file
    ensures file.Valid()
    ensures file.nodes == old(file.nodes) + DataMap()
  {
    ghost var start := file.nodes;
    SkeletonNamesValid();
    assert Simulation + ["data"] == Data;
    var created := file.CreateGroup(Simulation, "data", map[]);
    assert created;
    forall name | name in DataGroupNames
      ensures Data + [name] !in file.nodes
    {
      NoDescendants(start, Data, [name]);
    }
    DataNamesDistinct();
    CreateGroups(file, Data, DataGroupNames);
    Insert(start, Data, Group(map[]), ChildGroups(Data, DataGroupNames));
  }

  /** log and the metadata tree, under an existing simulation group. */
  method CreateMetadataGroups(file: H5File)
    requires file.Valid() && IsGroup(file.nodes, Simulation)
    requires Log !in file.nodes && Metadata !in file.nodes
    modifies file
    ensures file.Valid()
    ensures file.nodes == old(file.nodes) + MetadataMap()
  {
    ghost var start := file.nodes;
    SkeletonNamesValid();
    assert Simulation + ["log"] == Log && Simulation + ["metadata"] == Metadata;
    var created := file.CreateGroup(Simulation, "log", map[]);
    assert created;
    ghost var s1 := file.nodes;
    assert Log[1] != Metadata[1];
    created := file.CreateGroup(Simulation, "metadata", map[]);
    assert created;
    NoDescendants(s1, Metadata, ["metadata_0"]);
    assert Metadata + ["metadata_0"] == Metadata0;
    CreateMetadata0(file);
    Insert(s1, Metadata, Group(map[]), Metadata0Map());
    Insert(start, Log, Group(map[]), map[Metadata := Group(map[])] + Metadata0Map());
  }

  /** metadata_0 and the groups under it, under an existing metadata group. */
  method CreateMetadata0(file: H5File)
    requires file.Valid() && IsGroup(file.nodes, Metadata) && Metadata0 !in file.nodes
    modifies file
    ensures file.Valid()
    ensures file.nodes == old(file.nodes) + Metadata0Map()
  {
    ghost var start := file.nodes;
    SkeletonNamesValid();
    assert Metadata + ["metadata_0"] == Metadata0;
    var created := file.CreateGroup(Metadata, "metadata_0", map[]);
    assert created;
    NoDescendants(start, Metadata0, ["original"]);
    assert Metadata0 + ["original"] == Original;
    CreateOriginal(file);
    Metadata0ChildrenFresh(start);
    assert IsGroup(file.nodes, Metadata0);
    MetadataNamesDistinct();
    CreateGroups(file, Metadata0, MetadataGroupNames);
    Metadata0Merge(start);
  }

  lemma Metadata0ChildrenFresh(start: map<Path, Node>)
    requires WellFormed(start) && Metadata0 !in start
    ensures Metadata0 !in OriginalMap()
    ensures forall name :: name in MetadataGroupNames ==>
              Metadata0 + [name] !in start[Metadata0 := Group(map[])] + OriginalMap()
  {
    forall name | name in MetadataGroupNames
      ensures Metadata0 + [name] !in start[Metadata0 := Group(map[])] + OriginalMap()
    {
      Metadata0ChildFresh(start, name);
    }
    ChildGroupsKeys(Original, OriginalGroupNames, Metadata0);
  }

  lemma Metadata0Merge(start: map<Path, Node>)
    ensures start[Metadata0 := Group(map[])] + OriginalMap() + ChildGroups(Metadata0, MetadataGroupNames)
            == start + Metadata0Map()
  {
    MergeAssoc(start[Metadata0 := Group(map[])], OriginalMap(), ChildGroups(Metadata0, MetadataGroupNames));
    Insert(start, Metadata0, Group(map[]), OriginalMap() + ChildGroups(Metadata0, MetadataGroupNames));
  }

  lemma Metadata0ChildFresh(start: map<Path, Node>, name: string)
    requires WellFormed(start) && Metadata0 !in start && name in MetadataGroupNames
    ensures Metadata0 + [name] !in start[Metadata0 := Group(map[])] + OriginalMap()
  {
    NoDescendants(start, Metadata0, [name]);
    ChildGroupsKeys(Original, OriginalGroupNames, Metadata0 + [name]);
    assert (Metadata0 + [name])[3] == name != "original";
  }

  /** original with shortlist and all, under an existing metadata_0 group. */
  method CreateOriginal(file: H5File)
    requires file.Valid() && IsGroup(file.nodes, Metadata0) && Original !in file.nodes
    modifies file
    ensures file.Valid()
    ensures file.nodes == old(file.nodes) + OriginalMap()
  {
    ghost var start := file.nodes;
    SkeletonNamesValid();
    assert Metadata0 + ["original"] == Original;
    var created := file.CreateGroup(Metadata0, "original", map[]);
    assert created;
    forall name | name in OriginalGroupNames
      ensures Original + [name] !in file.nodes
    {
      NoDescendants(start, Original, [name]);
    }
    OriginalNamesDistinct();
    CreateGroups(file, Original, OriginalGroupNames);
    Insert(start, Original, Group(map[]), ChildGroups(Original, OriginalGroupNames));
  }

  /** No layer group of datacubes or realslices is part of the skeleton. */
  lemma SkeletonLeavesLayersFree(q: Path)
    requires |q| == 4 && q[1] == "data"
    ensures q !in SkeletonMap()
  {
    ChildGroupsKeys(Data, DataGroupNames, q);
    assert q !in MetadataMap() by {
      assert q != Log && q != Metadata && q != Metadata0;
      assert q != Original by {
        assert q[1] != Original[1];
      }
      ChildGroupsKeys(Original, OriginalGroupNames, q);
      ChildGroupsKeys(Metadata0, MetadataGroupNames, q);
      assert q[..3] != Metadata0 by {
        assert q[..3][1] != Metadata0[1];
      }
    }
  }

  /** Right after setupOutputFile, every per-depth setup finds its parent
      group and all its layer names free, so it succeeds (setup4DOutput
      when its chunk extents are nonzero as well). */
  lemma SkeletonReady(nodes: map<Path, Node>, base: string, n: nat)
    requires WellFormed(nodes) && Simulation !in nodes
    ensures IsGroup(nodes + SkeletonMap(), Datacubes) && LayersFree(nodes + SkeletonMap(), Datacubes, base, n)
    ensures IsGroup(nodes + SkeletonMap(), Realslices) && LayersFree(nodes + SkeletonMap(), Realslices, base, n)
  {
    SkeletonGroups(Datacubes);
    SkeletonGroups(Realslices);
    SkeletonLayersFree(nodes, Datacubes, "datacubes", base, n);
    SkeletonLayersFree(nodes, Realslices, "realslices", base, n);
  }

  lemma SkeletonLayersFree(nodes: map<Path, Node>, parent: Path, group: string, base: string, n: nat)
    requires WellFormed(nodes) && Simulation !in nodes
    requires parent == Simulation + ["data", group]
    ensures LayersFree(nodes + SkeletonMap(), parent, base, n)
  {
    forall m | 0 <= m < n
      ensures parent + [LayerName(base, m)] !in nodes + SkeletonMap()
    {
      NoDescendants(nodes, Simulation, ["data", group, LayerName(base, m)]);
      assert Simulation + ["data", group, LayerName(base, m)] == parent + [LayerName(base, m)];
      SkeletonLeavesLayersFree(parent + [LayerName(base, m)]);
    }
  }

  /** datacubes and realslices are groups of the skeleton. */
  lemma SkeletonGroups(q: Path)
    requires q == Datacubes || q == Realslices
    ensures q in SkeletonMap() && SkeletonMap()[q].Group?
  {
    ChildGroupsKeys(Data, DataGroupNames, q);
    assert q !in MetadataMap() by {
      ChildGroupsKeys(Original, OriginalGroupNames, q);
      ChildGroupsKeys(Metadata0, MetadataGroupNames, q);
      assert q[1] != Metadata0[1];
    }
  }

  /** emd_group_type = 1, metadata = 0 and output_depth of a data group. */
  function LayerAttrs(depth: real): Attrs {
    map["emd_group_type" := IntAttr(1), "metadata" := IntAttr(0), "output_depth" := FloatAttr(depth)]
  }

  // ---------------------------------------------------------------------
  // setup4DOutput: the reciprocal-space window

  /** Length of the longest prefix of q whose entries are all below qMax. */
  function PrefixBelow(q: seq<real>, qMax: real): nat {
    if q == [] || q[0] >= qMax then 0 else 1 + PrefixBelow(q[1..], qMax)
  }

  /** PrefixBelow is the longest such prefix. */
  lemma {:induction false} PrefixBelowSpec(q: seq<real>, qMax: real)
    ensures PrefixBelow(q, qMax) <= |q|
    ensures forall i :: 0 <= i < PrefixBelow(q, qMax) ==> q[i] < qMax
    ensures PrefixBelow(q, qMax) < |q| ==> q[PrefixBelow(q, qMax)] >= qMax
  {
    if q != [] && q[0] < qMax {
      PrefixBelowSpec(q[1..], qMax);
      forall i | 0 <= i < PrefixBelow(q, qMax)
        ensures q[i] < qMax
      {
        if i > 0 { assert q[i] == q[1..][i - 1]; }
      }
    }
  }

  /** A prefix length with the longest-prefix property is PrefixBelow. */
  lemma {:induction false} PrefixBelowUnique(q: seq<real>, qMax: real, k: nat)
    requires k <= |q| && (forall i :: 0 <= i < k ==> q[i] < qMax) && (k < |q| ==> q[k] >= qMax)
    ensures k == PrefixBelow(q, qMax)
  {
    if k > 0 {
      assert q[0] < qMax;
      PrefixBelowUnique(q[1..], qMax, k - 1);
    }
  }

  /** The crop loop: count entries from the start while they are below
      qMax, stopping at the first that is not. */
  method CountBelow(q: seq<real>, qMax: real) returns (count: nat)
    ensures count <= |q|
    ensures forall i :: 0 <= i < count ==> q[i] < qMax
    ensures count < |q| ==> q[count] >= qMax
    ensures count == PrefixBelow(q, qMax)
  {
    count := 0;
    var i := 0;
    while i < |q|
      invariant count == i <= |q|
      invariant forall j :: 0 <= j < i ==> q[j] < qMax
    {
      if q[i] < qMax {
        count := count + 1;
      } else {
        break;
      }
      i := i + 1;
    }
    PrefixBelowUnique(q, qMax, count);
  }

  /** Extent and offset of the two reciprocal axes of the datacube. */
  datatype Window = Window(qxMax: nat, qyMax: nat, offX: nat, offY: nat)

  predicate WindowDefined(p: Pars) {
    p.crop4DOutput ==> p.lambda != 0.0
  }

  function QMax(p: Pars): real
    requires WindowDefined(p) && p.crop4DOutput
  {
    p.crop4Damax / p.lambda
  }

  /** The crop rule: twice the prefix below crop4Damax/lambda with offset 0
      when cropping; else half the probe extent at a quarter offset for
      Multislice; else the whole grid. */
  function Window4D(p: Pars): Window
    requires WindowDefined(p)
  {
    if p.crop4DOutput then Window(2 * PrefixBelow(p.qx, QMax(p)), 2 * PrefixBelow(p.qy, QMax(p)), 0, 0)
    else if p.multislice then Window(p.probeDimi / 2, p.probeDimj / 2, p.probeDimi / 4, p.probeDimj / 4)
    else Window(|p.qx|, |p.qy|, 0, 0)
  }

  /** The axes written to dim3 and dim4: fftshifted for Multislice. */
  function QxUsed(p: Pars): seq<real> { if p.multislice then p.qxShifted else p.qx }
  function QyUsed(p: Pars): seq<real> { if p.multislice then p.qyShifted else p.qy }

  /** The calibration reads qx[offset .. offset + qxInd_max) stay inside qx. */
  predicate WindowFits(p: Pars)
    requires WindowDefined(p)
  {
    FitsIn(p, Window4D(p))
  }

  predicate FitsIn(p: Pars, w: Window) {
    w.offX + w.qxMax <= |QxUsed(p)| && w.offY + w.qyMax <= |QyUsed(p)|
  }

  /** The window computation of setup4DOutput, with its two crop loops. */
  method ReciprocalWindow(p: Pars) returns (w: Window)
    requires WindowDefined(p)
    ensures w == Window4D(p)
    ensures p.crop4DOutput ==> w.offX == 0 && w.qxMax % 2 == 0 && w.qxMax / 2 <= |p.qx|
                               && (forall i :: 0 <= i < w.qxMax / 2 ==> p.qx[i] < QMax(p))
                               && (w.qxMax / 2 < |p.qx| ==> p.qx[w.qxMax / 2] >= QMax(p))
  {
    var qxInd, qyInd: nat;
    var offX, offY: nat;
    if p.crop4DOutput {
      var qMax := p.crop4Damax / p.lambda;
      qxInd := CountBelow(p.qx, qMax);
      qyInd := CountBelow(p.qy, qMax);
      qxInd := qxInd * 2;
      qyInd := qyInd * 2;
      offX, offY := 0, 0;
    } else if p.multislice {
      qxInd, qyInd := p.probeDimi / 2, p.probeDimj / 2;
      offX, offY := p.probeDimi / 4, p.probeDimj / 4;
    } else {
      qxInd, qyInd := |p.qx|, |p.qy|;
      offX, offY := 0, 0;
    }
    w := Window(qxInd, qyInd, offX, offY);
  }

  /** One CBED_array_depth group: the 4D datacube (R_x, R_y, Q_x, Q_y) and
      its four calibration axes. */
  function Layer4D(p: Pars, w: Window, depth: real): GroupSpec
    requires FitsIn(p, w)
  {
    GroupSpec(LayerAttrs(depth), [
      ("datacube", Primary(Float, [|p.xp|, |p.yp|, w.qxMax, w.qyMax])),
      ("dim1", DimNode(p.xp, "R_x", "[n_m]")),
      ("dim2", DimNode(p.yp, "R_y", "[n_m]")),
      ("dim3", DimNode(QxUsed(p)[w.offX..w.offX + w.qxMax], "Q_x", "[n_m^-1]")),
      ("dim4", DimNode(QyUsed(p)[w.offY..w.offY + w.qyMax], "Q_y", "[n_m^-1]"))])
  }

  function Specs4D(p: Pars, numLayers: nat): seq<GroupSpec>
    requires WindowDefined(p) && WindowFits(p) && |p.depths| >= numLayers
  {
    seq(numLayers, n requires 0 <= n < numLayers => Layer4D(p, Window4D(p), p.depths[n]))
  }

  lemma DimNames()
    ensures DimName("dim", 1) == "dim1" && DimName("dim", 2) == "dim2"
    ensures DimName("dim", 3) == "dim3" && DimName("dim", 4) == "dim4"
    ensures DimName("dim", 5) == "dim5"
  {
  }

  /** Every 4D group is well formed and calibrated: the datacube has shape
      (|xp|, |yp|, qxInd_max, qyInd_max) and dimK has the length of axis K
      and its name and units, in every branch of the crop rule. */
  lemma Layer4DMembersOK(p: Pars, w: Window, depth: real)
    requires FitsIn(p, w)
    ensures MembersOK(Layer4D(p, w, depth).members)
  {
    DimNames();
  }

  lemma Layer4DCalibrated(p: Pars, w: Window, depth: real)
    requires FitsIn(p, w)
    ensures MembersOK(Layer4D(p, w, depth).members)
    ensures Calibrated(Layer4D(p, w, depth).members, "datacube")
    ensures Lookup(Layer4D(p, w, depth).members, "datacube").value.shape
            == [|p.xp|, |p.yp|, w.qxMax, w.qyMax]
  {
    Layer4DMembersOK(p, w, depth);
    DimNames();
    var ms := Layer4D(p, w, depth).members;
    LookupSome(ms, 0);
    LookupSome(ms, 1);
    LookupSome(ms, 2);
    LookupSome(ms, 3);
    LookupSome(ms, 4);
    LookupNone(ms, "dim5");
  }

  /** The four axes of a 4D layer are R_x, R_y in nm and Q_x, Q_y in 1/nm. */
  lemma Layer4DLabelled(p: Pars, w: Window, depth: real)
    requires FitsIn(p, w)
    ensures Labelled(Layer4D(p, w, depth).members, 1, "R_x", "[n_m]")
    ensures Labelled(Layer4D(p, w, depth).members, 2, "R_y", "[n_m]")
    ensures Labelled(Layer4D(p, w, depth).members, 3, "Q_x", "[n_m^-1]")
    ensures Labelled(Layer4D(p, w, depth).members, 4, "Q_y", "[n_m^-1]")
  {
    DimNames();
    var ms := Layer4D(p, w, depth).members;
    LookupSome(ms, 1);
    LookupSome(ms, 2);
    LookupSome(ms, 3);
    LookupSome(ms, 4);
  }

  /** The chunk extents (1, 1, qxInd_max, qyInd_max) that setChunk is given:
      the HDF5 library refuses a zero extent, so the first layer's dataset
      cannot be set up when either reciprocal extent is 0. */
  predicate ChunkOK(p: Pars)
    requires WindowDefined(p)
  {
    Window4D(p).qxMax > 0 && Window4D(p).qyMax > 0
  }

  /** When the chunk extents are refused: cropping keeps no entry of qx or
      of qy, or a Multislice probe extent is below 2, or an axis is empty. */
  lemma ChunkOKIff(p: Pars)
    requires WindowDefined(p)
    ensures ChunkOK(p) <==>
              if p.crop4DOutput then |p.qx| > 0 && p.qx[0] < QMax(p) && |p.qy| > 0 && p.qy[0] < QMax(p)
              else if p.multislice then p.probeDimi >= 2 && p.probeDimj >= 2
              else |p.qx| > 0 && |p.qy| > 0
  {
  }

  /** setup4DOutput. When the chunk extents are refused, the first pass of
      the layer loop has already created CBED_array_depth0000 with its three
      attributes, and nothing more is written. */
  method Setup4DOutput(file: H5File, p: Pars, numLayers: nat) returns (ok: bool)
    requires file.Valid()
    requires |p.depths| >= numLayers
    requires WindowDefined(p) && WindowFits(p)
    modifies file
    ensures file.Valid()
    ensures ok == (IsGroup(old(file.nodes), Datacubes)
                   && LayersFree(old(file.nodes), Datacubes, "CBED_array_depth", numLayers)
                   && (numLayers == 0 || ChunkOK(p)))
    ensures ok ==> file.nodes == old(file.nodes) + Layers(Datacubes, "CBED_array_depth", Specs4D(p, numLayers))
    ensures numLayers > 0 && !ChunkOK(p) ==>
              file.nodes == if CanCreate(old(file.nodes), Datacubes, LayerName("CBED_array_depth", 0))
                            then old(file.nodes)[Datacubes + [LayerName("CBED_array_depth", 0)] := Group(LayerAttrs(p.depths[0]))]
                            else old(file.nodes)
    ensures SubMap(old(file.nodes), file.nodes)
  {
    var w := ReciprocalWindow(p);
    if numLayers > 0 && (w.qxMax == 0 || w.qyMax == 0) {
      LayerNameValid("CBED_array_depth", 0);
      var created := file.CreateGroup(Datacubes, LayerName("CBED_array_depth", 0), LayerAttrs(p.depths[0]));
      ok := false;
      return;
    }
    var specs := Specs4D(p, numLayers);
    forall n | 0 <= n < numLayers
      ensures MembersOK(specs[n].members)
    {
      Layer4DCalibrated(p, Window4D(p), p.depths[n]);
    }
    ok := CreateLayers(file, Datacubes, "CBED_array_depth", specs);
  }

  /** A group written from Layer4D has the attributes of a data group, a
      datacube of extent (|xp|, |yp|, qxInd_max, qyInd_max) and the cropped
      Q_x axis as dim3. */
  lemma Layer4DHolds(nodes: map<Path, Node>, g: Path, p: Pars, w: Window, depth: real)
    requires FitsIn(p, w) && Holds(nodes, g, Layer4D(p, w, depth))
    ensures g in nodes && nodes[g] == Group(LayerAttrs(depth))
    ensures g + ["datacube"] in nodes && nodes[g + ["datacube"]].DataSet?
    ensures nodes[g + ["datacube"]].shape == [|p.xp|, |p.yp|, w.qxMax, w.qyMax]
    ensures g + ["dim3"] in nodes && nodes[g + ["dim3"]].DataSet?
    ensures nodes[g + ["dim3"]].contents == Floats(QxUsed(p)[w.offX..w.offX + w.qxMax])
  {
    Layer4DCalibrated(p, w, depth);
    LayerFacts(nodes, g, Layer4D(p, w, depth), 0);
    LayerFacts(nodes, g, Layer4D(p, w, depth), 3);
  }

  /** After setup4DOutput, layer n is a group with emd_group_type 1,
      metadata 0 and output_depth depths[n], it holds the members of
      Layer4D for the reciprocal window, and countDimensions of it is 4. */
  lemma Setup4DSchema(nodes: map<Path, Node>, after: map<Path, Node>, p: Pars, numLayers: nat, n: nat)
    requires WellFormed(nodes) && |p.depths| >= numLayers && WindowDefined(p) && WindowFits(p)
    requires LayersFree(nodes, Datacubes, "CBED_array_depth", numLayers) && n < numLayers
    requires after == nodes + Layers(Datacubes, "CBED_array_depth", Specs4D(p, numLayers))
    ensures Holds(after, Datacubes + [LayerName("CBED_array_depth", n)], Layer4D(p, Window4D(p), p.depths[n]))
    ensures DimRun(after, Datacubes + [LayerName("CBED_array_depth", n)], "dim", 4)
  {
    var specs := Specs4D(p, numLayers);
    assert specs[n] == Layer4D(p, Window4D(p), p.depths[n]);
    Layer4DCalibrated(p, Window4D(p), p.depths[n]);
    LayerSchema(nodes, after, Datacubes, "CBED_array_depth", specs, n, "datacube");
  }

  // ---------------------------------------------------------------------
  // setupVDOutput, setup2DOutput, setupDPCOutput

  /** One virtual_detector_depth group: realslice (R_x, R_y, bin) and the
      detector bin angles as its third axis. */
  function LayerVD(p: Pars, depth: real): GroupSpec
    requires |p.detectorAngles| >= p.Ndet
  {
    GroupSpec(LayerAttrs(depth), [
      ("realslice", Primary(Float, [|p.xp|, |p.yp|, p.Ndet])),
      ("dim1", DimNode(p.xp, "R_x", "[n_m]")),
      ("dim2", DimNode(p.yp, "R_y", "[n_m]")),
      ("dim3", DimNode(p.detectorAngles[..p.Ndet], "bin_outer_angle", "[mrad]"))])
  }

  /** One annular_detector_depth group: it also carries depth = 1. */
  function Layer2D(p: Pars, depth: real): GroupSpec {
    GroupSpec(LayerAttrs(depth)["depth" := IntAttr(1)], [
      ("realslice", Primary(Float, [|p.xp|, |p.yp|])),
      ("dim1", DimNode(p.xp, "R_x", "[n_m]")),
      ("dim2", DimNode(p.yp, "R_y", "[n_m]"))])
  }

  /** The two labels of the DPC centre-of-mass axis. */
  const DPCLabels: seq<string> := ["DPC_CoM_x", "DPC_CoM_y"]

  /** One DPC_CoM_depth group. Its third axis is a string dataset holding
      the two component labels, and has no name or units attribute. */
  function LayerDPC(p: Pars, depth: real): GroupSpec {
    GroupSpec(LayerAttrs(depth), [
      ("realslice", Primary(Float, [|p.xp|, |p.yp|, 2])),
      ("dim1", DimNode(p.xp, "R_x", "[n_m]")),
      ("dim2", DimNode(p.yp, "R_y", "[n_m]")),
      ("dim3", DataSet(FixedString, [2], Strings(DPCLabels), map[]))])
  }

  function SpecsVD(p: Pars, numLayers: nat): seq<GroupSpec>
    requires |p.detectorAngles| >= p.Ndet && |p.depths| >= numLayers
  {
    seq(numLayers, n requires 0 <= n < numLayers => LayerVD(p, p.depths[n]))
  }

  function Specs2D(p: Pars, numLayers: nat): seq<GroupSpec>
    requires |p.depths| >= numLayers
  {
    seq(numLayers, n requires 0 <= n < numLayers => Layer2D(p, p.depths[n]))
  }

  function SpecsDPC(p: Pars, numLayers: nat): seq<GroupSpec>
    requires |p.depths| >= numLayers
  {
    seq(numLayers, n requires 0 <= n < numLayers => LayerDPC(p, p.depths[n]))
  }

  lemma LayerVDCalibrated(p: Pars, depth: real)
    requires |p.detectorAngles| >= p.Ndet
    ensures MembersOK(LayerVD(p, depth).members)
    ensures Calibrated(LayerVD(p, depth).members, "realslice")
    ensures Lookup(LayerVD(p, depth).members, "realslice").value.shape == [|p.xp|, |p.yp|, p.Ndet]
    ensures Labelled(LayerVD(p, depth).members, 1, "R_x", "[n_m]")
    ensures Labelled(LayerVD(p, depth).members, 2, "R_y", "[n_m]")
    ensures Labelled(LayerVD(p, depth).members, 3, "bin_outer_angle", "[mrad]")
  {
    DimNames();
    var ms := LayerVD(p, depth).members;
    LookupSome(ms, 0);
    LookupSome(ms, 1);
    LookupSome(ms, 2);
    LookupSome(ms, 3);
    LookupNone(ms, "dim4");
  }

  lemma Layer2DCalibrated(p: Pars, depth: real)
    ensures MembersOK(Layer2D(p, depth).members)
    ensures Calibrated(Layer2D(p, depth).members, "realslice")
    ensures Lookup(Layer2D(p, depth).members, "realslice").value.shape == [|p.xp|, |p.yp|]
    ensures Labelled(Layer2D(p, depth).members, 1, "R_x", "[n_m]")
    ensures Labelled(Layer2D(p, depth).members, 2, "R_y", "[n_m]")
  {
    DimNames();
    var ms := Layer2D(p, depth).members;
    LookupSome(ms, 0);
    LookupSome(ms, 1);
    LookupSome(ms, 2);
    LookupNone(ms, "dim3");
  }

  /** The DPC group is calibrated too; dim3 holds the two labels. */
  lemma LayerDPCCalibrated(p: Pars, depth: real)
    ensures MembersOK(LayerDPC(p, depth).members)
    ensures Calibrated(LayerDPC(p, depth).members, "realslice")
    ensures Lookup(LayerDPC(p, depth).members, "realslice").value.shape == [|p.xp|, |p.yp|, 2]
    ensures Labelled(LayerDPC(p, depth).members, 1, "R_x", "[n_m]")
    ensures Labelled(LayerDPC(p, depth).members, 2, "R_y", "[n_m]")
    ensures Lookup(LayerDPC(p, depth).members, "dim3").value.contents == Strings(["DPC_CoM_x", "DPC_CoM_y"])
  {
    DimNames();
    var ms := LayerDPC(p, depth).members;
    assert NodeOK(ms[3].1) by {
      assert [2][..0] == [] && Product([2]) == Product([]) * 2;
    }
    LookupSome(ms, 0);
    LookupSome(ms, 1);
    LookupSome(ms, 2);
    LookupSome(ms, 3);
    LookupNone(ms, "dim4");
  }

  /** setupVDOutput. */
  method SetupVDOutput(file: H5File, p: Pars, numLayers: nat) returns (ok: bool)
    requires file.Valid()
    requires |p.depths| >= numLayers && |p.detectorAngles| >= p.Ndet
    modifies file
    ensures file.Valid()
    ensures ok == (IsGroup(old(file.nodes), Realslices)
                   && LayersFree(old(file.nodes), Realslices, "virtual_detector_depth", numLayers))
    ensures ok ==> file.nodes == old(file.nodes) + Layers(Realslices, "virtual_detector_depth", SpecsVD(p, numLayers))
    ensures SubMap(old(file.nodes), file.nodes)
  {
    var specs := SpecsVD(p, numLayers);
    forall n | 0 <= n < numLayers
      ensures MembersOK(specs[n].members)
    {
      LayerVDCalibrated(p, p.depths[n]);
    }
    ok := CreateLayers(file, Realslices, "virtual_detector_depth", specs);
  }

  /** setup2DOutput. */
  method Setup2DOutput(file: H5File, p: Pars, numLayers: nat) returns (ok: bool)
    requires file.Valid()
    requires |p.depths| >= numLayers
    modifies file
    ensures file.Valid()
    ensures ok == (IsGroup(old(file.nodes), Realslices)
                   && LayersFree(old(file.nodes), Realslices, "annular_detector_depth", numLayers))
    ensures ok ==> file.nodes == old(file.nodes) + Layers(Realslices, "annular_detector_depth", Specs2D(p, numLayers))
    ensures SubMap(old(file.nodes), file.nodes)
  {
    var specs := Specs2D(p, numLayers);
    forall n | 0 <= n < numLayers
      ensures MembersOK(specs[n].members)
    {
      Layer2DCalibrated(p, p.depths[n]);
    }
    ok := CreateLayers(file, Realslices, "annular_detector_depth", specs);
  }

  /** setupDPCOutput. */
  method SetupDPCOutput(file: H5File, p: Pars, numLayers: nat) returns (ok: bool)
    requires file.Valid()
    requires |p.depths| >= numLayers
    modifies file
    ensures file.Valid()
    ensures ok == (IsGroup(old(file.nodes), Realslices)
                   && LayersFree(old(file.nodes), Realslices, "DPC_CoM_depth", numLayers))
    ensures ok ==> file.nodes == old(file.nodes) + Layers(Realslices, "DPC_CoM_depth", SpecsDPC(p, numLayers))
    ensures SubMap(old(file.nodes), file.nodes)
  {
    var specs := SpecsDPC(p, numLayers);
    forall n | 0 <= n < numLayers
      ensures MembersOK(specs[n].members)
    {
      LayerDPCCalibrated(p, p.depths[n]);
    }
    ok := CreateLayers(file, Realslices, "DPC_CoM_depth", specs);
  }

  /** A group written from LayerVD has a realslice of extent
      (|xp|, |yp|, Ndet) and the first Ndet detector angles as dim3. */
  lemma LayerVDHolds(nodes: map<Path, Node>, g: Path, p: Pars, depth: real)
    requires |p.detectorAngles| >= p.Ndet && Holds(nodes, g, LayerVD(p, depth))
    ensures g in nodes && nodes[g] == Group(LayerAttrs(depth))
    ensures g + ["realslice"] in nodes && nodes[g + ["realslice"]].DataSet?
    ensures nodes[g + ["realslice"]].shape == [|p.xp|, |p.yp|, p.Ndet]
    ensures g + ["dim3"] in nodes && nodes[g + ["dim3"]].DataSet?
    ensures nodes[g + ["dim3"]].contents == Floats(p.detectorAngles[..p.Ndet])
  {
    LayerVDCalibrated(p, depth);
    LayerFacts(nodes, g, LayerVD(p, depth), 0);
    LayerFacts(nodes, g, LayerVD(p, depth), 3);
  }

  /** After setupVDOutput, layer n holds the members of LayerVD with
      output_depth depths[n], and countDimensions of it is 3. */
  lemma SetupVDSchema(nodes: map<Path, Node>, after: map<Path, Node>, p: Pars, numLayers: nat, n: nat)
    requires WellFormed(nodes) && |p.depths| >= numLayers && |p.detectorAngles| >= p.Ndet
    requires LayersFree(nodes, Realslices, "virtual_detector_depth", numLayers) && n < numLayers
    requires after == nodes + Layers(Realslices, "virtual_detector_depth", SpecsVD(p, numLayers))
    ensures Holds(after, Realslices + [LayerName("virtual_detector_depth", n)], LayerVD(p, p.depths[n]))
    ensures DimRun(after, Realslices + [LayerName("virtual_detector_depth", n)], "dim", 3)
  {
    var specs := SpecsVD(p, numLayers);
    assert specs[n] == LayerVD(p, p.depths[n]);
    LayerVDCalibrated(p, p.depths[n]);
    LayerSchema(nodes, after, Realslices, "virtual_detector_depth", specs, n, "realslice");
  }

  // ---------------------------------------------------------------------
  // setupSMatrixOutput

  /** The smatrix_fpNNNN group: a complex realslice of the Scompact extent
      and three axes created but never written (their writes are commented
      out in the source), so they hold the fill value. */
  function SMatrixSpec(p: Pars): GroupSpec {
    GroupSpec(map["emd_group_type" := IntAttr(1), "metadata" := IntAttr(0)], [
      ("realslice", Primary(ComplexFloat, [p.sDimi, p.sDimj, p.sDimk])),
      ("dim1", DataSet(Float, [|p.xp|], Fill(Float, |p.xp|), Labels("R_x", "[\U{00C5}]"))),
      ("dim2", DataSet(Float, [|p.yp|], Fill(Float, |p.yp|), Labels("R_y", "[\U{00C5}]"))),
      ("dim3", DataSet(Float, [p.numberBeams], Fill(Float, p.numberBeams), Labels("beam_number", "[none]")))])
  }

  /** The S-matrix axes are sized from xp, yp and numberBeams, not from
      Scompact: the group is calibrated exactly when the two agree. */
  lemma SMatrixCalibratedIff(p: Pars)
    ensures MembersOK(SMatrixSpec(p).members)
    ensures Calibrated(SMatrixSpec(p).members, "realslice")
            <==> p.sDimi == |p.xp| && p.sDimj == |p.yp| && p.sDimk == p.numberBeams
  {
    DimNames();
    var ms := SMatrixSpec(p).members;
    Product1(|p.xp|);
    Product1(|p.yp|);
    Product1(p.numberBeams);
    LookupSome(ms, 0);
    LookupSome(ms, 1);
    LookupSome(ms, 2);
    LookupSome(ms, 3);
    LookupNone(ms, "dim4");
    var s := Lookup(ms, "realslice").value.shape;
    assert s == [p.sDimi, p.sDimj, p.sDimk];
    if Calibrated(ms, "realslice") {
      assert DimOf(ms, 0 + 1, s[0]) && DimOf(ms, 1 + 1, s[1]) && DimOf(ms, 2 + 1, s[2]);
    }
  }

  /** setupSMatrixOutput. */
  method SetupSMatrixOutput(file: H5File, p: Pars, fp: int) returns (ok: bool)
    requires file.Valid()
    modifies file
    ensures file.Valid()
    ensures ok == CanCreate(old(file.nodes), Realslices, "smatrix_fp" + DigitString(fp))
    ensures file.nodes == if ok then old(file.nodes) + Entries(Realslices + ["smatrix_fp" + DigitString(fp)], SMatrixSpec(p))
                          else old(file.nodes)
  {
    SMatrixCalibratedIff(p);
    ok := CreateResultGroup(file, Realslices, "smatrix_fp" + DigitString(fp), SMatrixSpec(p));
  }

  // ---------------------------------------------------------------------
  // savePotentialSlices

  /** An axis sampled from 0 with a fixed step. */
  function Axis(n: nat, step: real): seq<real> {
    seq(n, i => (i as real) * step)
  }

  /** The calibration loop: entry i is i * step. */
  method Calibration(n: nat, step: real) returns (xs: seq<real>)
    ensures |xs| == n
    ensures forall i :: 0 <= i < n ==> xs[i] == (i as real) * step
    ensures xs == Axis(n, step)
  {
    xs := seq(n, _ => 0.0);
    var i := 0;
    while i < n
      invariant 0 <= i <= n && |xs| == n
      invariant forall j :: 0 <= j < i ==> xs[j] == (j as real) * step
    {
      xs := xs[i := (i as real) * step];
      i := i + 1;
    }
    assert forall j :: 0 <= j < n ==> xs[j] == Axis(n, step)[j];
  }

  /** The ppotential_fpNNNN group: the three sampled axes (x from
      imageSize[1] and pixelSize[1], y from imageSize[0] and pixelSize[0],
      z from numPlanes and sliceThickness) and the restrided potential. */
  function PotentialSpec(p: Pars): GroupSpec
    requires |p.restridedPot| == p.imageSize1 * p.imageSize0 * p.numPlanes
  {
    GroupSpec(map["emd_group_type" := IntAttr(1), "metadata" := IntAttr(0)], [
      ("dim1", DimNode(Axis(p.imageSize1, p.pixelSize1), "R_x", "[n_m]")),
      ("dim2", DimNode(Axis(p.imageSize0, p.pixelSize0), "R_y", "[n_m]")),
      ("dim3", DimNode(Axis(p.numPlanes, p.sliceThickness), "R_z", "[n_m]")),
      ("realslice", DataSet(Float, [p.imageSize1, p.imageSize0, p.numPlanes], Floats(p.restridedPot), map[]))])
  }

  lemma Product1(a: nat)
    ensures Product([a]) == a
  {
    assert [a][..0] == [];
  }

  lemma Product3(a: nat, b: nat, c: nat)
    ensures Product([a, b, c]) == a * b * c
  {
    assert [a, b, c][..2] == [a, b];
    assert [a, b][..1] == [a];
    Product1(a);
    assert Product([a, b]) == a * b;
  }

  /** The potential group is calibrated: the axes have the lengths of the
      potential's three extents, and axis K holds i times its step. */
  lemma PotentialCalibrated(p: Pars)
    requires |p.restridedPot| == p.imageSize1 * p.imageSize0 * p.numPlanes
    ensures MembersOK(PotentialSpec(p).members)
    ensures Calibrated(PotentialSpec(p).members, "realslice")
    ensures Labelled(PotentialSpec(p).members, 3, "R_z", "[n_m]")
    ensures Lookup(PotentialSpec(p).members, "dim3") == Some(DimNode(Axis(p.numPlanes, p.sliceThickness), "R_z", "[n_m]"))
  {
    DimNames();
    Product3(p.imageSize1, p.imageSize0, p.numPlanes);
    var ms := PotentialSpec(p).members;
    assert NodeOK(ms[3].1);
    assert forall i :: 0 <= i < |ms| ==> ValidName(ms[i].0) && ms[i].1.DataSet? && NodeOK(ms[i].1);
    assert DistinctNames(ms);
    LookupSome(ms, 0);
    LookupSome(ms, 1);
    LookupSome(ms, 2);
    LookupSome(ms, 3);
    LookupNone(ms, "dim4");
  }

  /** savePotentialSlices. */
  method SavePotentialSlices(file: H5File, p: Pars) returns (ok: bool)
    requires file.Valid()
    requires |p.restridedPot| == p.imageSize1 * p.imageSize0 * p.numPlanes
    modifies file
    ensures file.Valid()
    ensures ok == CanCreate(old(file.nodes), Realslices, "ppotential_fp" + DigitString(p.fpFlag))
    ensures file.nodes == if ok then old(file.nodes) + Entries(Realslices + ["ppotential_fp" + DigitString(p.fpFlag)], PotentialSpec(p))
                          else old(file.nodes)
  {
    var xDim := Calibration(p.imageSize1, p.pixelSize1);
    var yDim := Calibration(p.imageSize0, p.pixelSize0);
    var zDim := Calibration(p.numPlanes, p.sliceThickness);
    var spec := GroupSpec(map["emd_group_type" := IntAttr(1), "metadata" := IntAttr(0)], [
      ("dim1", DimNode(xDim, "R_x", "[n_m]")),
      ("dim2", DimNode(yDim, "R_y", "[n_m]")),
      ("dim3", DimNode(zDim, "R_z", "[n_m]")),
      ("realslice", DataSet(Float, [p.imageSize1, p.imageSize0, p.numPlanes], Floats(p.restridedPot), map[]))]);
    assert spec == PotentialSpec(p);
    PotentialCalibrated(p);
    ok := CreateResultGroup(file, Realslices, "ppotential_fp" + DigitString(p.fpFlag), spec);
  }
}
