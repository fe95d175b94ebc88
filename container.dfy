/** The HDF5 output file as an abstract container: a map from object path
    to node. A node is a group with attributes, or a dataset with element
    type, extent, contents and attributes. Every library call the schema
    code makes is a checked update of that map; a call the library would
    refuse (an existing name, a missing parent, a wrong selection) reports
    failure and leaves the map as it was. */
module Container {
  import opened Naming
  import opened Hyperslab

  /** Absolute path as its components; the root group is []. */
  type Path = seq<string>

  datatype Value =
    | IntAttr(i: int)                 // NATIVE_INT scalar
    | FloatAttr(x: real)              // PRISMATIC_FLOAT_PRECISION scalar
    | StringAttr(s: string)           // fixed-length string scalar
    | FloatVecAttr(xs: seq<real>)     // PRISMATIC_FLOAT_PRECISION vector

  type Attrs = map<string, Value>

  /** Element types: PFP_TYPE, the 256-byte string type, and the compound
      {r, i} complex type. */
  datatype DType = Float | FixedString | ComplexFloat

  datatype Complex = Complex(r: real, i: real)

  /** One mapping of a virtual dataset: the whole of the source dataset is
      seen through the block (offset, block) of the virtual extent. */
  datatype VirtualSource = VirtualSource(
    fileName: string, srcPath: Path, srcShape: seq<nat>, offset: seq<nat>, block: seq<nat>)

  datatype Contents =
    | Floats(xs: seq<real>)
    | Strings(ss: seq<string>)
    | Complexes(zs: seq<Complex>)
    | Mapped(sources: seq<VirtualSource>)

  datatype Node =
    | Group(attrs: Attrs)
    | DataSet(dtype: DType, shape: seq<nat>, contents: Contents, attrs: Attrs)

  predicate HasType(t: DType, c: Contents) {
    match c
    case Floats(_) => t == Float
    case Strings(_) => t == FixedString
    case Complexes(_) => t == ComplexFloat
    case Mapped(_) => true
  }

  function Size(c: Contents): nat {
    match c
    case Floats(xs) => |xs|
    case Strings(ss) => |ss|
    case Complexes(zs) => |zs|
    case Mapped(_) => 0
  }

  /** A stored dataset holds one element of its type per point of its extent. */
  predicate NodeOK(n: Node) {
    n.DataSet? && !n.contents.Mapped? ==> HasType(n.dtype, n.contents) && Size(n.contents) == Product(n.shape)
  }

  /** The library's fill value for a dataset that was created but not written. */
  function Fill(t: DType, n: nat): (c: Contents)
    ensures HasType(t, c) && !c.Mapped? && Size(c) == n
  {
    match t
    case Float => Floats(seq(n, _ => 0.0))
    case FixedString => Strings(seq(n, _ => ""))
    case ComplexFloat => Complexes(seq(n, _ => Complex(0.0, 0.0)))
  }

  /** A link name the library accepts as one component. */
  predicate ValidName(s: string) {
    s != [] && '/' !in s
  }

  /** The root is a group, every stored dataset is consistent, and every
      other object has a valid name under a group. */
  ghost predicate WellFormed(nodes: map<Path, Node>) {
    && [] in nodes && nodes[[]].Group?
    && (forall p | p in nodes :: NodeOK(nodes[p]))
    && (forall p, c | p + [c] in nodes :: ValidName(c) && p in nodes && nodes[p].Group?)
  }

  /** createGroup / createDataSet succeed: the parent is a group and the name
      is free. */
  predicate CanCreate(nodes: map<Path, Node>, parent: Path, name: string) {
    ValidName(name) && parent in nodes && nodes[parent].Group? && parent + [name] !in nodes
  }

  predicate IsGroup(nodes: map<Path, Node>, p: Path) {
    p in nodes && nodes[p].Group?
  }

  predicate IsDataSet(nodes: map<Path, Node>, p: Path) {
    p in nodes && nodes[p].DataSet?
  }

  /** A stored (not virtual) dataset of floats. */
  predicate IsFloatDataSet(nodes: map<Path, Node>, p: Path) {
    p in nodes && nodes[p].DataSet? && nodes[p].dtype == Float && nodes[p].contents.Floats?
  }

  /** Everything in a is still in b, unchanged. */
  ghost predicate SubMap(a: map<Path, Node>, b: map<Path, Node>) {
    forall p | p in a :: p in b && b[p] == a[p]
  }

  /** Under a well-formed map, nothing lies under a path that is absent. */
  lemma ChildOfAbsent(nodes: map<Path, Node>, g: Path, c: string)
    requires WellFormed(nodes) && g !in nodes
    ensures g + [c] !in nodes
  {
  }

  /** Nor anywhere below it. */
  lemma {:induction false} NoDescendants(nodes: map<Path, Node>, g: Path, q: Path)
    requires WellFormed(nodes) && g !in nodes
    ensures g + q !in nodes
  {
    if q == [] {
      assert g + q == g;
    } else {
      NoDescendants(nodes, g, q[..|q| - 1]);
      assert g + q == (g + q[..|q| - 1]) + [q[|q| - 1]];
    }
  }

  lemma SnocInjective(p: Path, c: string, q: Path, d: string)
    requires p + [c] == q + [d]
    ensures p == q && c == d
  {
    assert p == (p + [c])[..|p|];
    assert q == (q + [d])[..|q|];
  }

  /** Creating a valid name under a group keeps the file well formed. */
  lemma InsertWellFormed(nodes: map<Path, Node>, parent: Path, name: string, node: Node)
    requires WellFormed(nodes) && CanCreate(nodes, parent, name) && NodeOK(node)
    ensures WellFormed(nodes[parent + [name] := node])
  {
    var m := nodes[parent + [name] := node];
    forall p, c | p + [c] in m
      ensures ValidName(c) && p in m && m[p].Group?
    {
      if p + [c] == parent + [name] {
        SnocInjective(p, c, parent, name);
      }
    }
  }

  /** Replacing an object by one of the same kind keeps the file well formed. */
  lemma ReplaceWellFormed(nodes: map<Path, Node>, p: Path, node: Node)
    requires WellFormed(nodes) && p in nodes && node.Group? == nodes[p].Group? && NodeOK(node)
    ensures WellFormed(nodes[p := node])
  {
  }

  class H5File {
    const fileName: string
    var nodes: map<Path, Node>

    ghost predicate Valid()
      reads this
    {
      WellFormed(nodes)
    }

    /** A new file holds only its root group. */
    constructor (fileName: string)
      ensures Valid()
      ensures this.fileName == fileName && nodes == map[[] := Group(map[])]
    {
      this.fileName := fileName;
      nodes := map[[] := Group(map[])];
    }

    /** H5Location::nameExists. */
    predicate NameExists(p: Path)
      reads this
    {
      p in nodes
    }

    /** createGroup, followed by the attributes written on the new group. */
    method CreateGroup(parent: Path, name: string, attrs: Attrs) returns (ok: bool)
      requires Valid()
      modifies this
      ensures Valid()
      ensures ok == CanCreate(old(nodes), parent, name)
      ensures nodes == if ok then old(nodes)[parent + [name] := Group(attrs)] else old(nodes)
    {
      ok := CanCreate(nodes, parent, name);
      if ok {
        InsertWellFormed(nodes, parent, name, Group(attrs));
        nodes := nodes[parent + [name] := Group(attrs)];
      }
    }

    /** createDataSet, followed by the full write of its contents and the
        creation of its attributes. The node carries what was written: the
        fill value where nothing was. */
    method CreateDataSet(parent: Path, name: string, node: Node) returns (ok: bool)
      requires Valid()
      requires node.DataSet? && NodeOK(node)
      modifies this
      ensures Valid()
      ensures ok == CanCreate(old(nodes), parent, name)
      ensures nodes == if ok then old(nodes)[parent + [name] := node] else old(nodes)
    {
      ok := CanCreate(nodes, parent, name);
      if ok {
        InsertWellFormed(nodes, parent, name, node);
        nodes := nodes[parent + [name] := node];
      }
    }

    /** createAttribute + write on an existing object. */
    method CreateAttribute(p: Path, key: string, v: Value) returns (ok: bool)
      requires Valid()
      modifies this
      ensures Valid()
      ensures ok == (p in old(nodes) && key !in old(nodes)[p].attrs)
      ensures nodes == if ok then old(nodes)[p := old(nodes)[p].(attrs := old(nodes)[p].attrs[key := v])] else old(nodes)
    {
      ok := p in nodes && key !in nodes[p].attrs;
      if ok {
        var n := nodes[p];
        nodes := nodes[p := n.(attrs := n.attrs[key := v])];
      }
    }

    /** DataSet::write with an all-selected file space: the element counts of
        memory and file must agree. */
    method WriteFloats(p: Path, xs: seq<real>) returns (ok: bool)
      requires Valid()
      modifies this
      ensures Valid()
      ensures ok == (IsFloatDataSet(old(nodes), p) && |xs| == Product(old(nodes)[p].shape))
      ensures nodes == if ok then old(nodes)[p := old(nodes)[p].(contents := Floats(xs))] else old(nodes)
    {
      ok := IsFloatDataSet(nodes, p) && |xs| == Product(nodes[p].shape);
      if ok {
        var n := nodes[p];
        nodes := nodes[p := n.(contents := Floats(xs))];
      }
    }

    /** Write of one string at position i of a one-dimensional string
        dataset (a one-element hyperslab). */
    method WriteStringAt(p: Path, i: nat, s: string) returns (ok: bool)
      requires Valid()
      modifies this
      ensures Valid()
      ensures ok == (p in old(nodes) && old(nodes)[p].DataSet? && old(nodes)[p].contents.Strings?
                     && |old(nodes)[p].shape| == 1 && i < |old(nodes)[p].contents.ss|)
      ensures nodes == if ok then old(nodes)[p := old(nodes)[p].(contents := Strings(old(nodes)[p].contents.ss[i := s]))]
                       else old(nodes)
    {
      ok := p in nodes && nodes[p].DataSet? && nodes[p].contents.Strings?
            && |nodes[p].shape| == 1 && i < |nodes[p].contents.ss|;
      if ok {
        var n := nodes[p];
        nodes := nodes[p := n.(contents := Strings(n.contents.ss[i := s]))];
      }
    }

    /** Hyperslab selection that H5Dread and H5Dwrite accept on a stored
        float dataset. */
    predicate SlabAccessible(p: Path, offset: seq<nat>, count: seq<nat>)
      reads this
    {
      IsFloatDataSet(nodes, p) && SlabFits(nodes[p].shape, offset, count)
      && |nodes[p].contents.xs| == Product(nodes[p].shape)
    }

    /** DataSet::read of a hyperslab into a buffer of extent count. */
    method ReadHyperslab(p: Path, offset: seq<nat>, count: seq<nat>) returns (ok: bool, data: seq<real>)
      requires Valid()
      ensures ok == SlabAccessible(p, offset, count)
      ensures ok ==> data == ReadSlab(nodes[p].contents.xs, nodes[p].shape, offset, count)
    {
      ok := SlabAccessible(p, offset, count);
      data := [];
      if ok {
        data := ReadSlab(nodes[p].contents.xs, nodes[p].shape, offset, count);
      }
    }

    /** DataSet::write of a buffer of extent count into a hyperslab. */
    method WriteHyperslab(p: Path, offset: seq<nat>, count: seq<nat>, buf: seq<real>) returns (ok: bool)
      requires Valid()
      requires |buf| == Product(count)
      modifies this
      ensures Valid()
      ensures ok == old(SlabAccessible(p, offset, count))
      ensures nodes == if ok then old(nodes)[p := old(nodes)[p].(contents :=
                         Floats(WriteSlab(old(nodes)[p].contents.xs, old(nodes)[p].shape, offset, count, buf)))]
                       else old(nodes)
    {
      ok := SlabAccessible(p, offset, count);
      if ok {
        var n := nodes[p];
        nodes := nodes[p := n.(contents := Floats(WriteSlab(n.contents.xs, n.shape, offset, count, buf)))];
      }
    }
  }
}
