/** The dataset writers: the full writes of realslices and 3D cubes, the
    accumulating hyperslab write of one probe position of a 4D datacube,
    and the element-wise write of a string array. */
module Writers {
  import opened Hyperslab
  import opened Container

  // ---------------------------------------------------------------------
  // writeRealSlice, writeDatacube3D

  /** A full write: the memory extent mdims must hold as many elements as
      the dataset, and the dataset then holds the first Product(mdims)
      buffer elements in order. */
  method WriteFull(file: H5File, p: Path, buffer: seq<real>, mdims: seq<nat>) returns (ok: bool)
    requires file.Valid() && |buffer| >= Product(mdims)
    modifies file
    ensures file.Valid()
    ensures ok == (IsFloatDataSet(old(file.nodes), p) && Product(mdims) == Product(old(file.nodes)[p].shape))
    ensures file.nodes == if ok then old(file.nodes)[p := old(file.nodes)[p].(contents := Floats(buffer[..Product(mdims)]))]
                          else old(file.nodes)
  {
    ok := file.WriteFloats(p, buffer[..Product(mdims)]);
  }

  /** writeRealSlice: a rank-2 memory space over the whole dataset. */
  method WriteRealSlice(file: H5File, p: Path, buffer: seq<real>, mdims: seq<nat>) returns (ok: bool)
    requires file.Valid() && |mdims| == 2 && |buffer| >= Product(mdims)
    modifies file
    ensures file.Valid()
    ensures ok == (IsFloatDataSet(old(file.nodes), p) && Product(mdims) == Product(old(file.nodes)[p].shape))
    ensures file.nodes == if ok then old(file.nodes)[p := old(file.nodes)[p].(contents := Floats(buffer[..Product(mdims)]))]
                          else old(file.nodes)
  {
    ok := WriteFull(file, p, buffer, mdims);
  }

  /** writeDatacube3D: a rank-3 memory space over the whole dataset. */
  method WriteDatacube3D(file: H5File, p: Path, buffer: seq<real>, mdims: seq<nat>) returns (ok: bool)
    requires file.Valid() && |mdims| == 3 && |buffer| >= Product(mdims)
    modifies file
    ensures file.Valid()
    ensures ok == (IsFloatDataSet(old(file.nodes), p) && Product(mdims) == Product(old(file.nodes)[p].shape))
    ensures file.nodes == if ok then old(file.nodes)[p := old(file.nodes)[p].(contents := Floats(buffer[..Product(mdims)]))]
                          else old(file.nodes)
  {
    ok := WriteFull(file, p, buffer, mdims);
  }

  /** Reading a whole dataset back after a full write gives its contents in
      order: the all-selection maps element m of memory to element m of
      the file. */
  lemma FullSelection<T>(xs: seq<T>, shape: seq<nat>)
    requires |xs| == Product(shape)
    ensures SlabFits(shape, Origin(|shape|), shape)
    ensures ReadSlab(xs, shape, Origin(|shape|), shape) == xs
  {
    var z := Origin(|shape|);
    assert SlabFits(shape, z, shape);
    var r := ReadSlab(xs, shape, z, shape);
    forall m | 0 <= m < |xs|
      ensures r[m] == xs[m]
    {
      FullIndex(shape, m);
    }
  }

  /** The all-selection reads element m from element m. */
  lemma FullIndex(shape: seq<nat>, m: nat)
    requires m < Product(shape)
    ensures SlabFits(shape, Origin(|shape|), shape)
    ensures FileIndex(shape, Origin(|shape|), shape, m) == m
  {
    var z := Origin(|shape|);
    assert SlabFits(shape, z, shape);
    FlattenUnflatten(shape, m);
    var c := Unflatten(shape, m);
    assert Shift(z, c) == c by {
      forall a | 0 <= a < |c| ensures Shift(z, c)[a] == c[a] {
        assert z[a] == 0;
      }
    }
  }

  // ---------------------------------------------------------------------
  // writeDatacube4D

  /** The caller's buffer after the division loop: its first n elements
      divided by the number of frozen phonon configurations. */
  function Divided(xs: seq<real>, n: nat, numFP: real): (r: seq<real>)
    requires n <= |xs| && numFP != 0.0
    ensures |r| == |xs|
    ensures forall k :: 0 <= k < n ==> r[k] * numFP == xs[k]
    ensures r[n..] == xs[n..]
  {
    seq(|xs|, k requires 0 <= k < |xs| => if k < n then xs[k] / numFP else xs[k])
  }

  lemma IndexBounds(i: nat, j: nat, d2: nat, d3: nat)
    requires i < d2 && j < d3
    ensures i * d3 + j < d2 * d3 && j * d2 + i < d2 * d3
  {
    MulLe(i + 1, d2, d3);
    MulLe(j + 1, d3, d2);
  }

  /** The (qx, qy) plane with its axes exchanged: entry i*d3 + j is entry
      j*d2 + i of the computed buffer. */
  function Transposed(xs: seq<real>, d2: nat, d3: nat): (r: seq<real>)
    requires d2 * d3 <= |xs|
    ensures |r| == d2 * d3
  {
    seq(d2 * d3, k requires 0 <= k < d2 * d3 =>
      DivBound(k, d2, d3);
      IndexBounds(k / d3, k % d3, d2, d3);
      xs[(k % d3) * d2 + k / d3])
  }

  lemma TransposedAt(xs: seq<real>, d2: nat, d3: nat, i: nat, j: nat)
    requires d2 * d3 <= |xs| && i < d2 && j < d3
    ensures i * d3 + j < d2 * d3 && j * d2 + i < d2 * d3
    ensures Transposed(xs, d2, d3)[i * d3 + j] == xs[j * d2 + i]
  {
    IndexBounds(i, j, d2, d3);
    DivMod(i, j, d3);
  }

  /** Exchanging the axes twice gives the plane back. */
  lemma TransposedTwice(xs: seq<real>, d2: nat, d3: nat)
    requires d2 * d3 <= |xs|
    ensures d3 * d2 == d2 * d3
    ensures Transposed(Transposed(xs, d2, d3), d3, d2) == xs[..d2 * d3]
  {
    var t := Transposed(xs, d2, d3);
    var tt := Transposed(t, d3, d2);
    forall k | 0 <= k < d2 * d3
      ensures tt[k] == xs[k]
    {
      TransposedTwiceAt(xs, d2, d3, k);
    }
  }

  lemma TransposedTwiceAt(xs: seq<real>, d2: nat, d3: nat, k: nat)
    requires d2 * d3 <= |xs| && k < d2 * d3
    ensures d3 * d2 == d2 * d3
    ensures Transposed(Transposed(xs, d2, d3), d3, d2)[k] == xs[k]
  {
    var t := Transposed(xs, d2, d3);
    assert d3 * d2 == d2 * d3;
    DivBound(k, d3, d2);
    var i, j := k / d2, k % d2;
    assert k == i * d2 + j;
    TransposedAt(t, d3, d2, i, j);
    TransposedAt(xs, d2, d3, j, i);
  }

  /** Pointwise sum. */
  function Add(a: seq<real>, b: seq<real>): (r: seq<real>)
    requires |a| == |b|
    ensures |r| == |a| && forall k :: 0 <= k < |a| ==> r[k] == a[k] + b[k]
  {
    seq(|a|, k requires 0 <= k < |a| => a[k] + b[k])
  }

  /** The read-add-write of one block: the block gains t, element for
      element in memory order. */
  function Accumulate(xs: seq<real>, shape: seq<nat>, offset: seq<nat>, count: seq<nat>, t: seq<real>): (r: seq<real>)
    requires |xs| == Product(shape) && SlabFits(shape, offset, count) && |t| == Product(count)
    ensures |r| == |xs|
  {
    WriteSlab(xs, shape, offset, count, Add(t, ReadSlab(xs, shape, offset, count)))
  }

  /** Block element m gains t[m]; everything outside the block is kept. */
  lemma AccumulateAt(xs: seq<real>, shape: seq<nat>, offset: seq<nat>, count: seq<nat>, t: seq<real>, m: nat)
    requires |xs| == Product(shape) && SlabFits(shape, offset, count) && |t| == Product(count)
    requires m < Product(count)
    ensures Accumulate(xs, shape, offset, count, t)[FileIndex(shape, offset, count, m)]
            == xs[FileIndex(shape, offset, count, m)] + t[m]
  {
    WriteSlabAt(xs, shape, offset, count, Add(t, ReadSlab(xs, shape, offset, count)), m);
  }

  lemma AccumulateOutside(xs: seq<real>, shape: seq<nat>, offset: seq<nat>, count: seq<nat>, t: seq<real>, k: nat)
    requires |xs| == Product(shape) && SlabFits(shape, offset, count) && |t| == Product(count)
    requires k < |xs| && !InSlab(shape, offset, count, k)
    ensures Accumulate(xs, shape, offset, count, t)[k] == xs[k]
  {
  }

  /** Frozen phonon configurations may be accumulated in either order. */
  lemma AccumulateCommutes(xs: seq<real>, shape: seq<nat>, offset: seq<nat>, count: seq<nat>, t1: seq<real>, t2: seq<real>)
    requires |xs| == Product(shape) && SlabFits(shape, offset, count)
    requires |t1| == Product(count) && |t2| == Product(count)
    ensures Accumulate(Accumulate(xs, shape, offset, count, t1), shape, offset, count, t2)
            == Accumulate(Accumulate(xs, shape, offset, count, t2), shape, offset, count, t1)
  {
    var a1 := Accumulate(xs, shape, offset, count, t1);
    var a2 := Accumulate(xs, shape, offset, count, t2);
    var a12 := Accumulate(a1, shape, offset, count, t2);
    var a21 := Accumulate(a2, shape, offset, count, t1);
    forall k | 0 <= k < |xs|
      ensures a12[k] == a21[k]
    {
      if InSlab(shape, offset, count, k) {
        var m := MemIndex(shape, offset, count, k);
        MemFileInverse(shape, offset, count, k);
        AccumulateAt(xs, shape, offset, count, t1, m);
        AccumulateAt(xs, shape, offset, count, t2, m);
        AccumulateAt(a1, shape, offset, count, t2, m);
        AccumulateAt(a2, shape, offset, count, t1, m);
      } else {
        AccumulateOutside(xs, shape, offset, count, t1, k);
        AccumulateOutside(xs, shape, offset, count, t2, k);
        AccumulateOutside(a1, shape, offset, count, t2, k);
        AccumulateOutside(a2, shape, offset, count, t1, k);
      }
    }
  }

  lemma Product4(mdims: seq<nat>)
    requires |mdims| == 4
    ensures Product(mdims) == mdims[0] * mdims[1] * mdims[2] * mdims[3]
  {
    assert mdims[..3][..2][..1][..0] == [];
    assert Product(mdims[..3][..2][..1]) == mdims[0];
    assert Product(mdims[..3][..2]) == mdims[0] * mdims[1];
    assert Product(mdims[..3]) == mdims[0] * mdims[1] * mdims[2];
  }

  /** openGroup(nameString) and openDataSet("datacube") succeed. */
  predicate Opened(nodes: map<Path, Node>, group: Path) {
    IsGroup(nodes, group) && IsDataSet(nodes, group + ["datacube"])
  }

  /** What one probe position adds to the datacube. */
  function Contribution(xs: seq<real>, mdims: seq<nat>, numFP: real): (r: seq<real>)
    requires |mdims| == 4 && mdims[0] * mdims[1] == 1 && |xs| >= mdims[2] * mdims[3] && numFP != 0.0
    ensures |r| == mdims[2] * mdims[3]
  {
    Transposed(Divided(xs, mdims[2] * mdims[3], numFP), mdims[2], mdims[3])
  }

  /** The division loop of writeDatacube4D, on the caller's buffer. */
  method DivideBuffer(buffer: array<real>, n: nat, numFP: real)
    requires n <= buffer.Length && numFP != 0.0
    modifies buffer
    ensures buffer[..] == Divided(old(buffer[..]), n, numFP)
  {
    var k := 0;
    while k < n
      invariant 0 <= k <= n
      invariant forall q :: 0 <= q < k ==> buffer[q] == old(buffer[q]) / numFP
      invariant forall q :: k <= q < buffer.Length ==> buffer[q] == old(buffer[q])
    {
      buffer[k] := buffer[k] / numFP;
      k := k + 1;
    }
  }

  /** The restride loops of writeDatacube4D: a fresh buffer filled in
      (qx, qy) order from the (qy, qx) ordered one. */
  method TransposeBuffer(buffer: array<real>, d2: nat, d3: nat) returns (finalBuffer: array<real>)
    requires d2 * d3 <= buffer.Length
    ensures fresh(finalBuffer)
    ensures finalBuffer[..] == Transposed(buffer[..], d2, d3)
  {
    ghost var t := Transposed(buffer[..], d2, d3);
    finalBuffer := new real[d2 * d3];
    var i := 0;
    while i < d2
      invariant 0 <= i <= d2
      invariant i * d3 <= d2 * d3
      invariant forall q :: 0 <= q < i * d3 ==> finalBuffer[q] == t[q]
    {
      MulLe(i + 1, d2, d3);
      assert (i + 1) * d3 == i * d3 + d3;
      var j := 0;
      while j < d3
        invariant 0 <= j <= d3
        invariant i * d3 + j <= d2 * d3
        invariant forall q :: 0 <= q < i * d3 + j ==> finalBuffer[q] == t[q]
      {
        TransposedAt(buffer[..], d2, d3, i, j);
        finalBuffer[i * d3 + j] := buffer[j * d2 + i];
        j := j + 1;
      }
      i := i + 1;
    }
    assert i * d3 == d2 * d3;
  }

  /** The add loop of writeDatacube4D. */
  method AddInto(acc: array<real>, b: seq<real>)
    requires acc.Length == |b|
    modifies acc
    ensures acc[..] == Add(old(acc[..]), b)
  {
    var k := 0;
    while k < acc.Length
      invariant 0 <= k <= acc.Length
      invariant forall q :: 0 <= q < k ==> acc[q] == old(acc[q]) + b[q]
      invariant forall q :: k <= q < acc.Length ==> acc[q] == old(acc[q])
    {
      acc[k] := acc[k] + b[k];
      k := k + 1;
    }
  }

  /** writeDatacube4D, under the write lock. The caller's buffer is divided
      in place once the dataset is open; a selection outside the stored
      extent then fails at the read and leaves the file as it was. */
  method WriteDatacube4D(file: H5File, buffer: array<real>, mdims: seq<nat>, offset: seq<nat>, numFP: real, group: Path)
    returns (ok: bool)
    requires file.Valid()
    requires |mdims| == 4 && mdims[0] * mdims[1] == 1 && buffer.Length >= mdims[2] * mdims[3]
    requires numFP != 0.0
    modifies file, buffer
    ensures file.Valid()
    ensures ok == (Opened(old(file.nodes), group) && old(file.SlabAccessible(group + ["datacube"], offset, mdims)))
    ensures buffer[..] == if Opened(old(file.nodes), group) then Divided(old(buffer[..]), mdims[2] * mdims[3], numFP)
                          else old(buffer[..])
    ensures ok ==> Product(mdims) == mdims[2] * mdims[3]
    ensures file.nodes == if ok then
              var n := old(file.nodes)[group + ["datacube"]];
              old(file.nodes)[group + ["datacube"] := n.(contents := Floats(
                Accumulate(n.contents.xs, n.shape, offset, mdims, Contribution(old(buffer[..]), mdims, numFP))))]
            else old(file.nodes)
  {
    ok := false;
    if !(file.NameExists(group) && file.nodes[group].Group?) {
      return;
    }
    var p := group + ["datacube"];
    if !(file.NameExists(p) && file.nodes[p].DataSet?) {
      return;
    }
    var d2, d3 := mdims[2], mdims[3];
    Product4(mdims);
    assert Product(mdims) == d2 * d3;
    DivideBuffer(buffer, d2 * d3, numFP);
    var finalBuffer := TransposeBuffer(buffer, d2, d3);
    var read, readBuffer := file.ReadHyperslab(p, offset, mdims);
    if !read {
      return;
    }
    AddInto(finalBuffer, readBuffer);
    ok := file.WriteHyperslab(p, offset, mdims, finalBuffer[..]);
  }

  /** Entries of one probe position: entry (i, j) of the added plane is
      entry (j, i) of the caller's buffer, divided by numFP. */
  lemma ContributionAt(xs: seq<real>, mdims: seq<nat>, numFP: real, i: nat, j: nat)
    requires |mdims| == 4 && mdims[0] * mdims[1] == 1 && |xs| >= mdims[2] * mdims[3] && numFP != 0.0
    requires i < mdims[2] && j < mdims[3]
    ensures i * mdims[3] + j < mdims[2] * mdims[3] && j * mdims[2] + i < mdims[2] * mdims[3]
    ensures Contribution(xs, mdims, numFP)[i * mdims[3] + j] * numFP == xs[j * mdims[2] + i]
  {
    TransposedAt(Divided(xs, mdims[2] * mdims[3], numFP), mdims[2], mdims[3], i, j);
  }

  // ---------------------------------------------------------------------
  // writeStringArray

  /** A one-dimensional dataset of strings. */
  predicate IsStringVector(nodes: map<Path, Node>, p: Path) {
    p in nodes && nodes[p].DataSet? && nodes[p].contents.Strings? && |nodes[p].shape| == 1
  }

  /** ss with its first m entries taken from strings. */
  function Overwrite(ss: seq<string>, strings: seq<string>, m: nat): (r: seq<string>)
    requires m <= |ss| && m <= |strings|
    ensures |r| == |ss|
    ensures forall k :: 0 <= k < m ==> r[k] == strings[k]
    ensures forall k :: m <= k < |ss| ==> r[k] == ss[k]
  {
    strings[..m] + ss[m..]
  }

  /** Writing entry m extends the overwritten prefix by one. */
  lemma OverwriteStep(ss: seq<string>, strings: seq<string>, m: nat)
    requires m < |ss| && m < |strings|
    ensures Overwrite(ss, strings, m)[m := strings[m]] == Overwrite(ss, strings, m + 1)
  {
  }

  function Min(a: nat, b: nat): nat {
    if a < b then a else b
  }

  /** The file with the strings of the vector at p replaced by ss. */
  function WithStrings(nodes: map<Path, Node>, p: Path, ss: seq<string>): map<Path, Node>
    requires IsStringVector(nodes, p)
  {
    nodes[p := nodes[p].(contents := Strings(ss))]
  }

  lemma WithStringsSame(nodes: map<Path, Node>, p: Path)
    requires IsStringVector(nodes, p)
    ensures WithStrings(nodes, p, nodes[p].contents.ss) == nodes
  {
    var n := nodes[p];
    assert n.(contents := Strings(n.contents.ss)) == n;
  }

  /** A second replacement overrides the first. */
  lemma WithStringsTwice(nodes: map<Path, Node>, p: Path, a: seq<string>, b: seq<string>)
    requires IsStringVector(nodes, p)
    ensures IsStringVector(WithStrings(nodes, p, a), p)
    ensures WithStrings(WithStrings(nodes, p, a), p, b) == WithStrings(nodes, p, b)
  {
    var n := nodes[p];
    assert n.(contents := Strings(a)).(contents := Strings(b)) == n.(contents := Strings(b));
  }

  /** writeStringArray: one single-element hyperslab write per string. A
      count larger than the dataset fails at the first position past its
      end, after the writes before it have happened. */
  method WriteStringArray(file: H5File, p: Path, strings: seq<string>, elements: nat) returns (ok: bool)
    requires file.Valid() && elements <= |strings|
    modifies file
    ensures file.Valid()
    ensures ok == (elements == 0 || (IsStringVector(old(file.nodes), p) && elements <= |old(file.nodes)[p].contents.ss|))
    ensures file.nodes == if IsStringVector(old(file.nodes), p) then
              var ss := old(file.nodes)[p].contents.ss;
              WithStrings(old(file.nodes), p, Overwrite(ss, strings, Min(elements, |ss|)))
            else old(file.nodes)
  {
    ok := true;
    if !IsStringVector(file.nodes, p) {
      if elements > 0 {
        ok := file.WriteStringAt(p, 0, strings[0]);
      }
      return;
    }
    ok := WriteStrings(file, p, strings, elements);
  }

  /** The loop of writeStringArray over an existing string vector. */
  method WriteStrings(file: H5File, p: Path, strings: seq<string>, elements: nat) returns (ok: bool)
    requires file.Valid() && IsStringVector(file.nodes, p) && elements <= |strings|
    modifies file
    ensures file.Valid()
    ensures ok == (elements <= |old(file.nodes)[p].contents.ss|)
    ensures file.nodes == WithStrings(old(file.nodes), p,
              Overwrite(old(file.nodes)[p].contents.ss, strings, Min(elements, |old(file.nodes)[p].contents.ss|)))
  {
    ghost var start := file.nodes;
    ghost var ss := start[p].contents.ss;
    ghost var m := Min(elements, |ss|);
    assert Overwrite(ss, strings, 0) == ss;
    WithStringsSame(start, p);
    ok := true;
    var i := 0;
    while i < elements
      invariant 0 <= i <= m
      invariant file.Valid()
      invariant IsStringVector(start, p)
      invariant file.nodes == WithStrings(start, p, Overwrite(ss, strings, i))
    {
      var written := file.WriteStringAt(p, i, strings[i]);
      if !written {
        ok := false;
        return;
      }
      WithStringsTwice(start, p, Overwrite(ss, strings, i), Overwrite(ss, strings, i)[i := strings[i]]);
      OverwriteStep(ss, strings, i);
      i := i + 1;
    }
  }

  /** Writing as many strings as the vector holds, as the DPC labels are
      written over their fill values, leaves exactly those strings in it,
      whatever it held; its shape, its attributes and every other object
      are kept. */
  lemma WriteAllReplaces(nodes: map<Path, Node>, p: Path, strings: seq<string>)
    requires IsStringVector(nodes, p) && |nodes[p].contents.ss| == |strings|
    ensures var ss := nodes[p].contents.ss;
            var after := WithStrings(nodes, p, Overwrite(ss, strings, Min(|strings|, |ss|)));
            && after.Keys == nodes.Keys
            && after[p].DataSet? && after[p].contents == Strings(strings)
            && after[p].shape == nodes[p].shape && after[p].attrs == nodes[p].attrs
            && (forall q :: q in nodes && q != p ==> after[q] == nodes[q])
  {
    var ss := nodes[p].contents.ss;
    assert Overwrite(ss, strings, |strings|) == strings;
  }
}
