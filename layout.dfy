/** The shape every result group of the output file shares: a group with
    attributes that directly holds a primary dataset and its calibration
    datasets dim1..dimN. `CreateResultGroup` performs the library calls
    of one such group in order; `CreateLayers` does so for the per-depth
    groups base0000, base0001, ... of the setup functions. */
module Layout {
  import opened Naming
  import opened Hyperslab
  import opened Container

  datatype Option<T> = None | Some(value: T)

  /** The group attributes and the datasets created directly under the
      group, in the order the code creates them. */
  datatype GroupSpec = GroupSpec(attrs: Attrs, members: seq<(string, Node)>)

  /** The dataset of a given name among the members (the last one wins). */
  function Lookup(ms: seq<(string, Node)>, name: string): Option<Node> {
    if ms == [] then None
    else if ms[|ms| - 1].0 == name then Some(ms[|ms| - 1].1)
    else Lookup(ms[..|ms| - 1], name)
  }

  predicate DistinctNames(ms: seq<(string, Node)>) {
    forall i, j :: 0 <= i < j < |ms| ==> ms[i].0 != ms[j].0
  }

  /** Members the library accepts one after another under a new group. */
  predicate MembersOK(ms: seq<(string, Node)>) {
    && DistinctNames(ms)
    && forall i :: 0 <= i < |ms| ==> ValidName(ms[i].0) && ms[i].1.DataSet? && NodeOK(ms[i].1)
  }

  /** The paths and nodes of the members placed under group g. */
  function Members(g: Path, ms: seq<(string, Node)>): map<Path, Node> {
    if ms == [] then map[]
    else Members(g, ms[..|ms| - 1])[g + [ms[|ms| - 1].0] := ms[|ms| - 1].1]
  }

  /** Everything a result group adds to the file. */
  function Entries(g: Path, spec: GroupSpec): map<Path, Node> {
    Members(g, spec.members)[g := Group(spec.attrs)]
  }

  /** Name of the n-th per-depth group: base + getDigitString(n). */
  function LayerName(base: string, n: nat): string {
    base + DigitString(n)
  }

  /** Everything the per-depth groups base0000 .. add under parent. */
  function Layers(parent: Path, base: string, specs: seq<GroupSpec>): map<Path, Node> {
    if specs == [] then map[]
    else Layers(parent, base, specs[..|specs| - 1]) + Entries(parent + [LayerName(base, |specs| - 1)], specs[|specs| - 1])
  }

  /** After the calls, group g holds exactly the attributes and members of spec. */
  ghost predicate Holds(nodes: map<Path, Node>, g: Path, spec: GroupSpec) {
    && g in nodes && nodes[g] == Group(spec.attrs)
    && forall name :: (g + [name] in nodes <==> Lookup(spec.members, name).Some?)
                      && (g + [name] in nodes ==> nodes[g + [name]] == Lookup(spec.members, name).value)
  }

  lemma {:induction false} LookupNone(ms: seq<(string, Node)>, name: string)
    requires forall i :: 0 <= i < |ms| ==> ms[i].0 != name
    ensures Lookup(ms, name) == None
  {
    if ms != [] {
      LookupNone(ms[..|ms| - 1], name);
    }
  }

  lemma {:induction false} LookupSome(ms: seq<(string, Node)>, i: nat)
    requires DistinctNames(ms) && i < |ms|
    ensures Lookup(ms, ms[i].0) == Some(ms[i].1)
  {
    if i < |ms| - 1 {
      LookupSome(ms[..|ms| - 1], i);
    }
  }

  /** The members map has the member names as its only children of g. */
  lemma {:induction false} MembersAt(g: Path, ms: seq<(string, Node)>, name: string)
    ensures g + [name] in Members(g, ms) <==> Lookup(ms, name).Some?
    ensures g + [name] in Members(g, ms) ==> Members(g, ms)[g + [name]] == Lookup(ms, name).value
  {
    if ms != [] {
      MembersAt(g, ms[..|ms| - 1], name);
      var last := ms[|ms| - 1].0;
      if last != name {
        assert (g + [last])[|g|] != (g + [name])[|g|];
      }
    }
  }

  /** Every key of the members map lies directly under g. */
  lemma {:induction false} MembersKeys(g: Path, ms: seq<(string, Node)>, p: Path)
    requires p in Members(g, ms)
    ensures |p| == |g| + 1 && p[..|g|] == g
  {
    if ms != [] && p != g + [ms[|ms| - 1].0] {
      MembersKeys(g, ms[..|ms| - 1], p);
    }
  }

  /** The entries of a new group on a file that had nothing at g. */
  lemma EntriesHold(nodes: map<Path, Node>, g: Path, spec: GroupSpec)
    requires WellFormed(nodes) && g !in nodes
    ensures Holds(nodes + Entries(g, spec), g, spec)
  {
    var m := nodes + Entries(g, spec);
    forall name
      ensures (g + [name] in m <==> Lookup(spec.members, name).Some?)
              && (g + [name] in m ==> m[g + [name]] == Lookup(spec.members, name).value)
    {
      ChildOfAbsent(nodes, g, name);
      MembersAt(g, spec.members, name);
      assert g + [name] != g;
    }
  }

  /** Every key the per-depth groups add lies strictly below parent. */
  lemma {:induction false} LayersKeys(parent: Path, base: string, specs: seq<GroupSpec>, p: Path)
    requires p in Layers(parent, base, specs)
    ensures |p| > |parent| && p[..|parent|] == parent
  {
    var k := |specs| - 1;
    var g := parent + [LayerName(base, k)];
    if p in Layers(parent, base, specs[..k]) {
      LayersKeys(parent, base, specs[..k], p);
    } else if p != g {
      MembersKeys(g, specs[k].members, p);
      assert p[..|parent|] == p[..|g|][..|parent|];
    }
  }

  /** A group path parent + [name] is added by the layers only as one of
      their own groups, and then its name is base + the padded index. */
  lemma {:induction false} LayersFresh(parent: Path, base: string, specs: seq<GroupSpec>, n: nat)
    requires n >= |specs|
    ensures parent + [LayerName(base, n)] !in Layers(parent, base, specs)
  {
    if specs != [] {
      var k := |specs| - 1;
      var g := parent + [LayerName(base, k)];
      var q := parent + [LayerName(base, n)];
      LayersFresh(parent, base, specs[..k], n);
      if q == g {
        assert q[|parent|] == g[|parent|];
        LayerNameInjective(base, n, k);
        assert false;
      }
      if q in Members(g, specs[k].members) {
        MembersKeys(g, specs[k].members, q);
        assert false;
      }
    }
  }

  /** A group's entries added where nothing was at or under g. */
  lemma HoldsOfEntries(pre: map<Path, Node>, g: Path, spec: GroupSpec)
    requires g !in pre && forall name :: g + [name] !in pre
    ensures Holds(pre + Entries(g, spec), g, spec)
  {
    forall name
      ensures (g + [name] in pre + Entries(g, spec) <==> Lookup(spec.members, name).Some?)
              && (g + [name] in pre + Entries(g, spec) ==>
                    (pre + Entries(g, spec))[g + [name]] == Lookup(spec.members, name).value)
    {
      MembersAt(g, spec.members, name);
      assert g + [name] != g;
    }
  }

  /** Adding entries that touch neither g nor its children keeps Holds. */
  lemma HoldsAfterDisjoint(m: map<Path, Node>, e: map<Path, Node>, g: Path, spec: GroupSpec)
    requires Holds(m, g, spec) && g !in e && forall name :: g + [name] !in e
    ensures Holds(m + e, g, spec)
  {
  }

  /** A later layer's entries touch neither an earlier group nor its children. */
  lemma EntriesApart(parent: Path, base: string, n: nat, k: nat, spec: GroupSpec)
    requires n != k
    ensures parent + [LayerName(base, n)] !in Entries(parent + [LayerName(base, k)], spec)
    ensures forall name :: parent + [LayerName(base, n)] + [name] !in Entries(parent + [LayerName(base, k)], spec)
  {
    var gk := parent + [LayerName(base, k)];
    var gn := parent + [LayerName(base, n)];
    assert gn != gk by {
      if gn == gk {
        assert gn[|parent|] == gk[|parent|];
        LayerNameInjective(base, n, k);
      }
    }
    if gn in Members(gk, spec.members) {
      MembersKeys(gk, spec.members, gn);
    }
    forall name
      ensures gn + [name] !in Entries(gk, spec)
    {
      if gn + [name] in Members(gk, spec.members) {
        MembersKeys(gk, spec.members, gn + [name]);
      }
    }
  }

  /** The n-th per-depth group holds its spec after all layers are added. */
  lemma {:induction false} LayersHold(nodes: map<Path, Node>, parent: Path, base: string, specs: seq<GroupSpec>, n: nat)
    requires WellFormed(nodes) && n < |specs| && LayersFree(nodes, parent, base, |specs|)
    ensures Holds(nodes + Layers(parent, base, specs), parent + [LayerName(base, n)], specs[n])
  {
    var k := |specs| - 1;
    if n == k {
      LayersHoldTop(nodes, parent, base, specs);
      MergeAssoc(nodes, Layers(parent, base, specs[..k]), Entries(parent + [LayerName(base, k)], specs[k]));
    } else {
      assert specs[..k][n] == specs[n];
      LayersHold(nodes, parent, base, specs[..k], n);
      var gk := parent + [LayerName(base, k)];
      LayersHoldBelow(nodes + Layers(parent, base, specs[..k]), parent, base, specs[n], n, k, specs[k]);
      MergeAssoc(nodes, Layers(parent, base, specs[..k]), Entries(gk, specs[k]));
      HoldsSame(nodes + Layers(parent, base, specs[..k]) + Entries(gk, specs[k]), nodes + Layers(parent, base, specs),
                parent + [LayerName(base, n)], specs[n]);
    }
  }

  lemma MergeAssoc<K, V>(a: map<K, V>, b: map<K, V>, c: map<K, V>)
    ensures a + b + c == a + (b + c)
  {
  }

  /** Adding the last layer keeps every earlier layer's spec. */
  lemma LayersHoldBelow(pre: map<Path, Node>, parent: Path, base: string, spec: GroupSpec, n: nat, k: nat, last: GroupSpec)
    requires n < k && Holds(pre, parent + [LayerName(base, n)], spec)
    ensures Holds(pre + Entries(parent + [LayerName(base, k)], last), parent + [LayerName(base, n)], spec)
  {
    EntriesApart(parent, base, n, k, last);
    HoldsAfterDisjoint(pre, Entries(parent + [LayerName(base, k)], last), parent + [LayerName(base, n)], spec);
  }

  lemma HoldsSame(a: map<Path, Node>, b: map<Path, Node>, g: Path, spec: GroupSpec)
    requires a == b && Holds(a, g, spec)
    ensures Holds(b, g, spec)
  {
  }

  /** The last layer holds its spec. */
  lemma LayersHoldTop(nodes: map<Path, Node>, parent: Path, base: string, specs: seq<GroupSpec>)
    requires WellFormed(nodes) && |specs| > 0 && LayersFree(nodes, parent, base, |specs|)
    ensures Holds(nodes + Layers(parent, base, specs[..|specs| - 1]) + Entries(parent + [LayerName(base, |specs| - 1)], specs[|specs| - 1]),
                  parent + [LayerName(base, |specs| - 1)], specs[|specs| - 1])
  {
    var k := |specs| - 1;
    var gk := parent + [LayerName(base, k)];
    var pre := nodes + Layers(parent, base, specs[..k]);
    assert gk !in nodes;
    LayersFresh(parent, base, specs[..k], k);
    forall name
      ensures gk + [name] !in pre
    {
      ChildOfAbsent(nodes, gk, name);
      LayersUnder(parent, base, specs[..k], k, name);
    }
    HoldsOfEntries(pre, gk, specs[k]);
  }

  /** Nothing the earlier layers add lies under a later layer's group. */
  lemma {:induction false} LayersUnder(parent: Path, base: string, specs: seq<GroupSpec>, n: nat, name: string)
    requires n >= |specs|
    ensures parent + [LayerName(base, n)] + [name] !in Layers(parent, base, specs)
  {
    if specs != [] {
      var k := |specs| - 1;
      var g := parent + [LayerName(base, k)];
      var q := parent + [LayerName(base, n)] + [name];
      LayersUnder(parent, base, specs[..k], n, name);
      if q in Members(g, specs[k].members) {
        MembersKeys(g, specs[k].members, q);
        assert q[..|g|] == parent + [LayerName(base, n)];
        assert q[|parent|] == g[|parent|];
        LayerNameInjective(base, n, k);
        assert false;
      }
    }
  }

  // ---------------------------------------------------------------------
  // Calibration

  /** std::string("dim") + std::to_string(k). */
  function DimName(base: string, k: nat): string {
    base + Decimal(k)
  }

  /** Member dimK is a one-dimensional dataset of the given length. */
  predicate DimOf(ms: seq<(string, Node)>, k: nat, len: nat) {
    var d := Lookup(ms, DimName("dim", k));
    d.Some? && d.value.DataSet? && d.value.shape == [len]
  }

  /** The primary dataset has a calibration dataset dimK per axis K whose
      length is the extent of that axis, and no dim beyond its rank. */
  predicate Calibrated(ms: seq<(string, Node)>, primary: string) {
    var d := Lookup(ms, primary);
    && d.Some? && d.value.DataSet?
    && (forall k :: 0 <= k < |d.value.shape| ==> DimOf(ms, k + 1, d.value.shape[k]))
    && Lookup(ms, DimName("dim", |d.value.shape| + 1)).None?
  }

  /** Member dimK carries the string attributes name and units. */
  predicate Labelled(ms: seq<(string, Node)>, k: nat, name: string, units: string) {
    var d := Lookup(ms, DimName("dim", k));
    && d.Some? && d.value.DataSet?
    && "name" in d.value.attrs && d.value.attrs["name"] == StringAttr(name)
    && "units" in d.value.attrs && d.value.attrs["units"] == StringAttr(units)
  }

  /** The gap-free run of names base1, base2, ... under g has length k. */
  ghost predicate DimRun(nodes: map<Path, Node>, g: Path, base: string, k: nat) {
    && (forall i :: 1 <= i <= k ==> g + [DimName(base, i)] in nodes)
    && g + [DimName(base, k + 1)] !in nodes
  }

  /** In a calibrated group the dimensions dim1..dimN are numbered without
      gap exactly up to the rank of the primary dataset. */
  lemma CalibratedRun(nodes: map<Path, Node>, g: Path, spec: GroupSpec, primary: string)
    requires Holds(nodes, g, spec) && Calibrated(spec.members, primary)
    ensures DimRun(nodes, g, "dim", |Lookup(spec.members, primary).value.shape|)
  {
    var s := Lookup(spec.members, primary).value.shape;
    forall i | 1 <= i <= |s|
      ensures g + [DimName("dim", i)] in nodes
    {
      assert DimOf(spec.members, (i - 1) + 1, s[i - 1]);
    }
  }

  /** A group written from a calibrated spec: dimK exists for every axis K
      of the primary dataset with the extent of that axis as its length,
      and countDimensions finds exactly the rank. */
  lemma CalibratedAxes(nodes: map<Path, Node>, g: Path, spec: GroupSpec, primary: string)
    requires Holds(nodes, g, spec) && Calibrated(spec.members, primary)
    ensures g + [primary] in nodes && nodes[g + [primary]].DataSet?
    ensures forall k :: 1 <= k <= |nodes[g + [primary]].shape| ==>
              g + [DimName("dim", k)] in nodes && nodes[g + [DimName("dim", k)]].DataSet?
              && nodes[g + [DimName("dim", k)]].shape == [nodes[g + [primary]].shape[k - 1]]
    ensures DimRun(nodes, g, "dim", |nodes[g + [primary]].shape|)
  {
    var s := Lookup(spec.members, primary).value.shape;
    forall k | 1 <= k <= |s|
      ensures g + [DimName("dim", k)] in nodes && nodes[g + [DimName("dim", k)]].DataSet?
              && nodes[g + [DimName("dim", k)]].shape == [s[k - 1]]
    {
      assert DimOf(spec.members, (k - 1) + 1, s[k - 1]);
    }
    CalibratedRun(nodes, g, spec, primary);
  }

  /** Layer n of a stack of calibrated groups holds its spec, and
      countDimensions of it finds the rank of its primary dataset. */
  lemma LayerSchema(nodes: map<Path, Node>, after: map<Path, Node>, parent: Path, base: string,
                    specs: seq<GroupSpec>, n: nat, primary: string)
    requires WellFormed(nodes) && n < |specs| && LayersFree(nodes, parent, base, |specs|)
    requires after == nodes + Layers(parent, base, specs)
    requires Calibrated(specs[n].members, primary)
    ensures Holds(after, parent + [LayerName(base, n)], specs[n])
    ensures DimRun(after, parent + [LayerName(base, n)], "dim", |Lookup(specs[n].members, primary).value.shape|)
  {
    LayersHold(nodes, parent, base, specs, n);
    CalibratedRun(after, parent + [LayerName(base, n)], specs[n], primary);
  }

  /** A group that holds a spec with distinct member names holds member i
      under that member's name. */
  lemma LayerFacts(nodes: map<Path, Node>, g: Path, spec: GroupSpec, i: nat)
    requires Holds(nodes, g, spec) && DistinctNames(spec.members) && i < |spec.members|
    ensures g + [spec.members[i].0] in nodes && nodes[g + [spec.members[i].0]] == spec.members[i].1
  {
    LookupSome(spec.members, i);
  }

  // ---------------------------------------------------------------------
  // The library calls of one result group and of the per-depth groups

  /** Member i's path is free before member i is created. */
  lemma MemberFresh(start: map<Path, Node>, g: Path, a: Attrs, ms: seq<(string, Node)>, i: nat)
    requires WellFormed(start) && g !in start && DistinctNames(ms) && i < |ms|
    ensures g + [ms[i].0] !in start + Members(g, ms[..i])[g := Group(a)]
  {
    ChildOfAbsent(start, g, ms[i].0);
    LookupNone(ms[..i], ms[i].0);
    MembersAt(g, ms[..i], ms[i].0);
    assert g + [ms[i].0] != g;
  }

  /** Creating member i extends the entries by that member. */
  lemma MemberStep(start: map<Path, Node>, g: Path, a: Attrs, ms: seq<(string, Node)>, i: nat)
    requires i < |ms| && g + [ms[i].0] != g
    ensures (start + Members(g, ms[..i])[g := Group(a)])[g + [ms[i].0] := ms[i].1]
            == start + Members(g, ms[..i + 1])[g := Group(a)]
  {
    assert ms[..i + 1][..i] == ms[..i];
    var m := Members(g, ms[..i]);
    assert Members(g, ms[..i + 1]) == m[g + [ms[i].0] := ms[i].1];
  }

  /** createGroup on parent, the group attributes, then createDataSet (with
      its write and attributes) for each member in order. */
  method CreateResultGroup(file: H5File, parent: Path, name: string, spec: GroupSpec) returns (ok: bool)
    requires file.Valid() && MembersOK(spec.members)
    modifies file
    ensures file.Valid()
    ensures ok == CanCreate(old(file.nodes), parent, name)
    ensures file.nodes == if ok then old(file.nodes) + Entries(parent + [name], spec) else old(file.nodes)
    ensures SubMap(old(file.nodes), file.nodes)
  {
    ok := file.CreateGroup(parent, name, spec.attrs);
    if !ok {
      return;
    }
    var g := parent + [name];
    var ms := spec.members;
    ghost var start := old(file.nodes);
    assert file.nodes == start + Members(g, ms[..0])[g := Group(spec.attrs)];
    var i := 0;
    while i < |ms|
      invariant 0 <= i <= |ms|
      invariant file.Valid()
      invariant file.nodes == start + Members(g, ms[..i])[g := Group(spec.attrs)]
      invariant SubMap(start, file.nodes)
    {
      MemberFresh(start, g, spec.attrs, ms, i);
      var created := file.CreateDataSet(g, ms[i].0, ms[i].1);
      assert created;
      MemberStep(start, g, spec.attrs, ms, i);
      i := i + 1;
    }
    assert ms[..i] == ms;
  }

  lemma LayerNameValid(base: string, n: nat)
    requires '/' !in base
    ensures ValidName(LayerName(base, n))
  {
    DigitStringNoSlash(n);
  }

  /** None of the first n per-depth group names exists under parent. */
  ghost predicate LayersFree(nodes: map<Path, Node>, parent: Path, base: string, n: nat) {
    forall m :: 0 <= m < n ==> parent + [LayerName(base, m)] !in nodes
  }

  lemma LayersFreeStep(nodes: map<Path, Node>, parent: Path, base: string, n: nat)
    requires LayersFree(nodes, parent, base, n) && parent + [LayerName(base, n)] !in nodes
    ensures LayersFree(nodes, parent, base, n + 1)
  {
  }

  /** The layers added before layer n leave parent a group and layer n's
      group path free of their own keys. */
  lemma LayerStepPre(start: map<Path, Node>, parent: Path, base: string, specs: seq<GroupSpec>, n: nat)
    requires IsGroup(start, parent) && n < |specs|
    ensures IsGroup(start + Layers(parent, base, specs[..n]), parent)
    ensures parent + [LayerName(base, n)] in start + Layers(parent, base, specs[..n])
            ==> parent + [LayerName(base, n)] in start
  {
    if parent in Layers(parent, base, specs[..n]) {
      LayersKeys(parent, base, specs[..n], parent);
    }
    LayersFresh(parent, base, specs[..n], n);
  }

  /** Adding layer n's entries extends the layers by one. */
  lemma LayerStep(start: map<Path, Node>, parent: Path, base: string, specs: seq<GroupSpec>, n: nat)
    requires n < |specs|
    ensures start + Layers(parent, base, specs[..n]) + Entries(parent + [LayerName(base, n)], specs[n])
            == start + Layers(parent, base, specs[..n + 1])
  {
    assert specs[..n + 1][..n] == specs[..n];
    assert specs[..n + 1][n] == specs[n];
  }

  /** The per-depth loop of the setup functions: open parent, then one
      result group base + getDigitString(n) for each n < |specs|. An
      exception stops the loop and keeps the groups already made. */
  method CreateLayers(file: H5File, parent: Path, base: string, specs: seq<GroupSpec>) returns (ok: bool)
    requires file.Valid() && '/' !in base
    requires forall n :: 0 <= n < |specs| ==> MembersOK(specs[n].members)
    modifies file
    ensures file.Valid()
    ensures ok == (IsGroup(old(file.nodes), parent) && LayersFree(old(file.nodes), parent, base, |specs|))
    ensures ok ==> file.nodes == old(file.nodes) + Layers(parent, base, specs)
    ensures SubMap(old(file.nodes), file.nodes)
  {
    ghost var start := file.nodes;
    ok := IsGroup(file.nodes, parent);
    if !ok {
      return;
    }
    var n := 0;
    assert specs[..0] == [];
    while n < |specs|
      invariant 0 <= n <= |specs|
      invariant file.Valid()
      invariant file.nodes == start + Layers(parent, base, specs[..n])
      invariant LayersFree(start, parent, base, n)
      invariant SubMap(start, file.nodes)
    {
      LayerNameValid(base, n);
      LayerStepPre(start, parent, base, specs, n);
      var created := CreateResultGroup(file, parent, LayerName(base, n), specs[n]);
      if !created {
        assert parent + [LayerName(base, n)] in start;
        ok := false;
        return;
      }
      LayersFreeStep(start, parent, base, n);
      LayerStep(start, parent, base, specs, n);
      n := n + 1;
    }
    assert specs[..n] == specs;
  }
}
