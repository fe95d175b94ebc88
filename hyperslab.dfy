/** Row-major (C order) layout of N-dimensional datasets and the hyperslab
    selections of the container: a block of extent `count` at `offset`,
    read into or written from a dense memory buffer of extent `count`. */
module Hyperslab {

  /** Number of elements of an extent. */
  function Product(dims: seq<nat>): nat {
    if dims == [] then 1 else Product(dims[..|dims| - 1]) * dims[|dims| - 1]
  }

  /** Linear index of a coordinate, last axis fastest. */
  function Flatten(dims: seq<nat>, c: seq<nat>): nat
    requires |c| == |dims|
  {
    if dims == [] then 0
    else Flatten(dims[..|dims| - 1], c[..|c| - 1]) * dims[|dims| - 1] + c[|c| - 1]
  }

  /** Coordinate of a linear index. */
  function Unflatten(dims: seq<nat>, k: nat): (c: seq<nat>)
    ensures |c| == |dims|
  {
    if dims == [] then []
    else if dims[|dims| - 1] == 0 then Unflatten(dims[..|dims| - 1], 0) + [0]
    else Unflatten(dims[..|dims| - 1], k / dims[|dims| - 1]) + [k % dims[|dims| - 1]]
  }

  predicate Within(dims: seq<nat>, c: seq<nat>) {
    |c| == |dims| && forall a :: 0 <= a < |c| ==> c[a] < dims[a]
  }

  lemma MulLe(a: nat, b: nat, d: nat)
    requires a <= b
    ensures a * d <= b * d
  {
  }

  lemma DivMod(q: nat, r: nat, d: nat)
    requires r < d
    ensures (q * d + r) / d == q && (q * d + r) % d == r
  {
    var k := q * d + r;
    var q' := k / d;
    var r' := k % d;
    assert k == q' * d + r';
    if q' < q {
      MulLe(q' + 1, q, d);
      assert false;
    } else if q' > q {
      MulLe(q + 1, q', d);
      assert false;
    }
  }

  lemma RowBound(f: nat, c: nat, p: nat, d: nat)
    requires f < p && c < d
    ensures f * d + c < p * d
  {
    MulLe(f + 1, p, d);
  }

  lemma DivBound(k: nat, p: nat, d: nat)
    requires d > 0 && k < p * d
    ensures k / d < p
  {
    if k / d >= p {
      MulLe(p, k / d, d);
      assert false;
    }
  }

  lemma {:induction false} FlattenBound(dims: seq<nat>, c: seq<nat>)
    requires Within(dims, c)
    ensures Flatten(dims, c) < Product(dims)
  {
    if dims != [] {
      var n := |dims|;
      var d := dims[n - 1];
      assert Within(dims[..n - 1], c[..n - 1]);
      FlattenBound(dims[..n - 1], c[..n - 1]);
      RowBound(Flatten(dims[..n - 1], c[..n - 1]), c[n - 1], Product(dims[..n - 1]), d);
    }
  }

  lemma {:induction false} UnflattenFlatten(dims: seq<nat>, c: seq<nat>)
    requires Within(dims, c)
    ensures Unflatten(dims, Flatten(dims, c)) == c
  {
    if dims != [] {
      var n := |dims|;
      assert Within(dims[..n - 1], c[..n - 1]);
      UnflattenFlatten(dims[..n - 1], c[..n - 1]);
      DivMod(Flatten(dims[..n - 1], c[..n - 1]), c[n - 1], dims[n - 1]);
      assert c == c[..n - 1] + [c[n - 1]];
    }
  }

  lemma {:induction false} FlattenUnflatten(dims: seq<nat>, k: nat)
    requires k < Product(dims)
    ensures Within(dims, Unflatten(dims, k))
    ensures Flatten(dims, Unflatten(dims, k)) == k
  {
    if dims != [] {
      var n := |dims|;
      var d := dims[n - 1];
      assert d > 0 by {
        assert Product(dims) == Product(dims[..n - 1]) * d;
      }
      DivBound(k, Product(dims[..n - 1]), d);
      var q, r := k / d, k % d;
      FlattenUnflatten(dims[..n - 1], q);
      var c0 := Unflatten(dims[..n - 1], q);
      assert Unflatten(dims, k) == c0 + [r];
      Snoc(dims, c0, r);
      Recombine(k, d);
    }
  }

  lemma Recombine(k: nat, d: nat)
    requires d > 0
    ensures (k / d) * d + k % d == k
  {
  }

  /** Extending a coordinate by a last component below the last extent. */
  lemma Snoc(dims: seq<nat>, c0: seq<nat>, r: nat)
    requires dims != [] && Within(dims[..|dims| - 1], c0) && r < dims[|dims| - 1]
    ensures Within(dims, c0 + [r])
    ensures Flatten(dims, c0 + [r]) == Flatten(dims[..|dims| - 1], c0) * dims[|dims| - 1] + r
  {
    var c := c0 + [r];
    assert c[..|c| - 1] == c0 && c[|c| - 1] == r;
  }


  /** The all-zero offset of a selection of rank n. */
  function Origin(n: nat): (z: seq<nat>)
    ensures |z| == n && forall a :: 0 <= a < n ==> z[a] == 0
  {
    seq(n, _ => 0)
  }

  function Shift(offset: seq<nat>, c: seq<nat>): (r: seq<nat>)
    requires |offset| == |c|
    ensures |r| == |c|
  {
    seq(|c|, a requires 0 <= a < |c| => offset[a] + c[a])
  }

  function Unshift(offset: seq<nat>, c: seq<nat>): (r: seq<nat>)
    requires |offset| == |c|
    ensures |r| == |c|
  {
    seq(|c|, a requires 0 <= a < |c| => if c[a] >= offset[a] then c[a] - offset[a] else 0)
  }

  /** The selected block lies inside the extent (what H5Dread and H5Dwrite
      check of a hyperslab). */
  predicate SlabFits(shape: seq<nat>, offset: seq<nat>, count: seq<nat>) {
    && |offset| == |shape| && |count| == |shape|
    && forall a :: 0 <= a < |shape| ==> offset[a] + count[a] <= shape[a]
  }

  /** The linear index k of the dataset lies in the block. */
  predicate InSlab(shape: seq<nat>, offset: seq<nat>, count: seq<nat>, k: nat)
    requires |offset| == |shape| && |count| == |shape|
  {
    var c := Unflatten(shape, k);
    forall a :: 0 <= a < |c| ==> offset[a] <= c[a] < offset[a] + count[a]
  }

  /** File index of the m-th element of the memory buffer. */
  function FileIndex(shape: seq<nat>, offset: seq<nat>, count: seq<nat>, m: nat): (k: nat)
    requires SlabFits(shape, offset, count) && m < Product(count)
    ensures k < Product(shape)
    ensures InSlab(shape, offset, count, k)
  {
    FlattenUnflatten(count, m);
    var c := Shift(offset, Unflatten(count, m));
    assert Within(shape, c);
    FlattenBound(shape, c);
    UnflattenFlatten(shape, c);
    Flatten(shape, c)
  }

  /** Memory index of a file index inside the block. */
  function MemIndex(shape: seq<nat>, offset: seq<nat>, count: seq<nat>, k: nat): (m: nat)
    requires SlabFits(shape, offset, count) && k < Product(shape)
    requires InSlab(shape, offset, count, k)
    ensures m < Product(count)
  {
    var c := Unshift(offset, Unflatten(shape, k));
    assert Within(count, c);
    FlattenBound(count, c);
    Flatten(count, c)
  }

  /** The two index maps are inverse to each other. */
  lemma FileMemInverse(shape: seq<nat>, offset: seq<nat>, count: seq<nat>, m: nat)
    requires SlabFits(shape, offset, count) && m < Product(count)
    ensures MemIndex(shape, offset, count, FileIndex(shape, offset, count, m)) == m
  {
    FlattenUnflatten(count, m);
    var c := Shift(offset, Unflatten(count, m));
    assert Within(shape, c);
    UnflattenFlatten(shape, c);
    assert Unshift(offset, c) == Unflatten(count, m);
  }

  lemma MemFileInverse(shape: seq<nat>, offset: seq<nat>, count: seq<nat>, k: nat)
    requires SlabFits(shape, offset, count) && k < Product(shape)
    requires InSlab(shape, offset, count, k)
    ensures FileIndex(shape, offset, count, MemIndex(shape, offset, count, k)) == k
  {
    var u := Unflatten(shape, k);
    var c := Unshift(offset, u);
    assert Within(count, c);
    UnflattenFlatten(count, c);
    assert Shift(offset, c) == u;
    FlattenUnflatten(shape, k);
  }

  /** Hyperslab read: the block, in memory order. */
  function ReadSlab<T>(xs: seq<T>, shape: seq<nat>, offset: seq<nat>, count: seq<nat>): (r: seq<T>)
    requires |xs| == Product(shape) && SlabFits(shape, offset, count)
    ensures |r| == Product(count)
  {
    seq(Product(count), m requires 0 <= m < Product(count) => xs[FileIndex(shape, offset, count, m)])
  }

  /** Hyperslab write: the block replaced by the buffer, the rest kept. */
  function WriteSlab<T>(xs: seq<T>, shape: seq<nat>, offset: seq<nat>, count: seq<nat>, buf: seq<T>): (r: seq<T>)
    requires |xs| == Product(shape) && SlabFits(shape, offset, count) && |buf| == Product(count)
    ensures |r| == |xs|
  {
    seq(|xs|, k requires 0 <= k < |xs| =>
      if InSlab(shape, offset, count, k) then buf[MemIndex(shape, offset, count, k)] else xs[k])
  }

  /** A write stores buffer element m at the m-th position of the block and
      changes nothing outside the block. */
  lemma WriteSlabAt<T>(xs: seq<T>, shape: seq<nat>, offset: seq<nat>, count: seq<nat>, buf: seq<T>, m: nat)
    requires |xs| == Product(shape) && SlabFits(shape, offset, count) && |buf| == Product(count)
    requires m < Product(count)
    ensures WriteSlab(xs, shape, offset, count, buf)[FileIndex(shape, offset, count, m)] == buf[m]
  {
    FileMemInverse(shape, offset, count, m);
  }

  /** Reading back a block just written gives the buffer. */
  lemma ReadAfterWrite<T>(xs: seq<T>, shape: seq<nat>, offset: seq<nat>, count: seq<nat>, buf: seq<T>)
    requires |xs| == Product(shape) && SlabFits(shape, offset, count) && |buf| == Product(count)
    ensures ReadSlab(WriteSlab(xs, shape, offset, count, buf), shape, offset, count) == buf
  {
    var w := WriteSlab(xs, shape, offset, count, buf);
    forall m | 0 <= m < Product(count)
      ensures ReadSlab(w, shape, offset, count)[m] == buf[m]
    {
      WriteSlabAt(xs, shape, offset, count, buf, m);
    }
  }

  /** Writing back exactly what was read changes nothing. */
  lemma WriteWhatWasRead<T>(xs: seq<T>, shape: seq<nat>, offset: seq<nat>, count: seq<nat>)
    requires |xs| == Product(shape) && SlabFits(shape, offset, count)
    ensures WriteSlab(xs, shape, offset, count, ReadSlab(xs, shape, offset, count)) == xs
  {
    var w := WriteSlab(xs, shape, offset, count, ReadSlab(xs, shape, offset, count));
    forall k | 0 <= k < |xs| && InSlab(shape, offset, count, k)
      ensures w[k] == xs[k]
    {
      MemFileInverse(shape, offset, count, k);
    }
  }
}
