/** The mixed-radix encoding of coordinates: `dsteps` of a dataset, `H5VL_logi_sel_encode` and
    `H5VL_logi_sel_decode`. */
module Radix {
  import opened Grid

  /** Number of elements in the subspace below each dimension. */
  function Dsteps(dims: Coord): (r: seq<nat>)
    ensures |r| == |dims|
    decreases |dims|
  {
    if dims == [] then [] else [Prod(dims[1..])] + Dsteps(dims[1..])
  }

  lemma {:induction false} DstepsAt(dims: Coord, i: nat)
    requires i < |dims|
    ensures Dsteps(dims)[i] == Prod(dims[i + 1..])
    ensures Dsteps(dims)[i..] == Dsteps(dims[i..])
    decreases i
  {
    if i == 0 {
      assert dims[0..] == dims;
    } else {
      DstepsAt(dims[1..], i - 1);
      assert dims[1..][i..] == dims[i + 1..] && dims[1..][i - 1..] == dims[i..];
      assert Dsteps(dims)[i..] == Dsteps(dims[1..])[i - 1..];
    }
  }

  /** The recomputation done when a dataset is created or opened and whenever its extent is set. */
  method ComputeDsteps(dims: Coord) returns (dsteps: seq<nat>)
    requires |dims| > 0
    ensures dsteps == Dsteps(dims)
  {
    hide Prod, Dsteps;
    var n := |dims|;
    dsteps := seq(n, i => 1);
    var i := n - 1;
    NoneBelow(dims);
    while i > 0
      invariant 0 <= i < n == |dsteps| && forall t {:trigger dsteps[t]} :: i <= t < n ==> dsteps[t] == Prod(dims[t + 1..])
    {
      i := i - 1;
      OneBelow(dims, i + 1);
      dsteps := dsteps[i := dsteps[i + 1] * dims[i + 1]];
    }
    AreDsteps(dims, dsteps);
  }

  lemma NoneBelow(dims: Coord)
    ensures Prod(dims[|dims|..]) == 1
  {
  }

  lemma OneBelow(dims: Coord, i: nat)
    requires i < |dims|
    ensures Prod(dims[i..]) == Prod(dims[i + 1..]) * dims[i]
  {
    assert dims[i..][1..] == dims[i + 1..] && dims[i..][0] == dims[i];
  }

  lemma AreDsteps(dims: Coord, dsteps: seq<nat>)
    requires |dsteps| == |dims| && forall t :: 0 <= t < |dims| ==> dsteps[t] == Prod(dims[t + 1..])
    ensures dsteps == Dsteps(dims)
  {
    hide Prod;
    forall t | 0 <= t < |dims| ensures dsteps[t] == Dsteps(dims)[t] { DstepsAt(dims, t); }
  }

  /** The weighted sum computed by the encoder for arbitrary weights. */
  function Weighted(dsteps: seq<nat>, c: Coord): nat
    requires |dsteps| == |c|
    decreases |c|
  {
    if c == [] then 0 else c[0] * dsteps[0] + Weighted(dsteps[1..], c[1..])
  }

  lemma {:induction false} WeightedSnoc(dsteps: seq<nat>, c: Coord, i: nat)
    requires |dsteps| == |c| && i < |c|
    ensures Weighted(dsteps[..i + 1], c[..i + 1]) == Weighted(dsteps[..i], c[..i]) + c[i] * dsteps[i]
    decreases i
  {
    if i == 0 {
      assert dsteps[..1][1..] == [] && c[..1][1..] == [];
      assert dsteps[..0] == [] && c[..0] == [];
    } else {
      WeightedSnoc(dsteps[1..], c[1..], i - 1);
      assert dsteps[..i + 1][1..] == dsteps[1..][..i] && c[..i + 1][1..] == c[1..][..i];
      assert dsteps[..i][1..] == dsteps[1..][..i - 1] && c[..i][1..] == c[1..][..i - 1];
    }
  }

  method SelEncode(dsteps: seq<nat>, cord: Coord) returns (off: nat)
    requires |dsteps| == |cord|
    ensures off == Weighted(dsteps, cord)
  {
    off := 0;
    var i := 0;
    while i < |cord|
      invariant 0 <= i <= |cord|
      invariant off == Weighted(dsteps[..i], cord[..i])
    {
      WeightedSnoc(dsteps, cord, i);
      off := off + cord[i] * dsteps[i];
      i := i + 1;
    }
    assert dsteps[..i] == dsteps && cord[..i] == cord;
  }

  function Decode(dsteps: seq<nat>, off: nat): (c: Coord)
    requires Positive(dsteps)
    ensures |c| == |dsteps|
    decreases |dsteps|
  {
    if dsteps == [] then [] else [off / dsteps[0]] + Decode(dsteps[1..], off % dsteps[0])
  }

  method SelDecode(dsteps: seq<nat>, offset: nat) returns (cord: Coord)
    requires Positive(dsteps)
    ensures cord == Decode(dsteps, offset)
  {
    cord := [];
    var off := offset;
    var i := 0;
    while i < |dsteps|
      invariant 0 <= i <= |dsteps|
      invariant Decode(dsteps, offset) == cord + Decode(dsteps[i..], off)
    {
      assert dsteps[i..][1..] == dsteps[i + 1..];
      cord := cord + [off / dsteps[i]];
      off := off % dsteps[i];
      i := i + 1;
    }
  }

  /** With the dataset's own steps the encoder computes the row-major position. */
  lemma {:induction false} EncodeIsLinear(dims: Coord, c: Coord)
    requires |dims| == |c|
    ensures Weighted(Dsteps(dims), c) == Linear(dims, c)
    decreases |dims|
  {
    if dims != [] {
      EncodeIsLinear(dims[1..], c[1..]);
      assert Dsteps(dims)[1..] == Dsteps(dims[1..]);
    }
  }

  lemma {:induction false} DstepsPositive(dims: Coord)
    requires dims == [] || Positive(dims[1..])
    ensures Positive(Dsteps(dims))
    decreases |dims|
  {
    if dims != [] {
      ProdPositive(dims[1..]);
      if |dims| > 1 {
        assert forall k :: 0 <= k < |dims[1..][1..]| ==> dims[1..][1..][k] == dims[1..][k + 1];
        DstepsPositive(dims[1..]);
      }
      assert forall k :: 1 <= k < |dims| ==> Dsteps(dims)[k] == Dsteps(dims[1..])[k - 1];
    }
  }

  lemma DivModUnique(a: nat, p: nat, x: nat)
    requires x < p
    ensures (a * p + x) / p == a && (a * p + x) % p == x
  {
    var n := a * p + x;
    var q, r := n / p, n % p;
    assert n == q * p + r;
    if q < a { MulGap(q, a, p, r, x); }
    if a < q { MulGap(a, q, p, x, r); }
  }

  /** Decoding yields trailing digits below their radices and loses nothing of the offset. */
  lemma {:induction false} DecodeDigits(dims: Coord, off: nat)
    requires dims == [] || Positive(dims[1..])
    ensures Positive(Dsteps(dims))
    ensures InRadix(dims, Decode(Dsteps(dims), off))
    ensures dims != [] ==> Linear(dims, Decode(Dsteps(dims), off)) == off
    ensures Positive(dims) && off < Prod(dims) ==> InBounds(dims, Decode(Dsteps(dims), off))
    decreases |dims|
  {
    DstepsPositive(dims);
    if dims != [] {
      var t := dims[1..];
      var p := Prod(t);
      ProdPositive(t);
      assert t == [] || Positive(t[1..]) by {
        if t != [] { assert forall k :: 0 <= k < |t[1..]| ==> t[1..][k] == t[k + 1]; }
      }
      DecodeDigits(t, off % p);
      var c := Decode(Dsteps(dims), off);
      assert Dsteps(dims)[1..] == Dsteps(t);
      assert c[1..] == Decode(Dsteps(t), off % p);
      assert InBounds(t, c[1..]);
      forall k | 1 <= k < |c|
        ensures c[k] < dims[k]
      {
        assert c[1..][k - 1] < t[k - 1];
      }
      assert off == (off / p) * p + off % p;
      if Positive(dims) && off < Prod(dims) {
        if c[0] >= dims[0] { MulMono(dims[0], c[0], p); }
      }
    }
  }

  lemma {:induction false} DecodeLinear(dims: Coord, c: Coord)
    requires InRadix(dims, c)
    requires dims == [] || Positive(dims[1..])
    ensures Positive(Dsteps(dims)) && Decode(Dsteps(dims), Linear(dims, c)) == c
    decreases |dims|
  {
    DstepsPositive(dims);
    if dims != [] {
      var t := dims[1..];
      assert t == [] || Positive(t[1..]) by {
        if t != [] { assert forall k :: 0 <= k < |t[1..]| ==> t[1..][k] == t[k + 1]; }
      }
      DecodeLinear(t, c[1..]);
      LinearBound(t, c[1..]);
      DivModUnique(c[0], Prod(t), Linear(t, c[1..]));
      assert Dsteps(dims)[1..] == Dsteps(t);
      assert c == [c[0]] + c[1..];
    }
  }

  /** The codec is exact precisely on the coordinates whose trailing digits are below the extent the
      steps were computed from; a count that spans a trailing dimension completely is not. */
  lemma RadixRoundTrip(dims: Coord, c: Coord)
    requires |dims| == |c| > 0 && Positive(dims[1..])
    ensures Positive(Dsteps(dims))
    ensures Decode(Dsteps(dims), Weighted(Dsteps(dims), c)) == c <==> InRadix(dims, c)
  {
    EncodeIsLinear(dims, c);
    DecodeDigits(dims, Linear(dims, c));
    if InRadix(dims, c) { DecodeLinear(dims, c); }
  }

  /** On those coordinates the encoding is injective. */
  lemma EncodeInjective(dims: Coord, a: Coord, b: Coord)
    requires InRadix(dims, a) && InRadix(dims, b)
    requires Weighted(Dsteps(dims), a) == Weighted(Dsteps(dims), b)
    ensures a == b
  {
    EncodeIsLinear(dims, a);
    EncodeIsLinear(dims, b);
    LinearOrder(dims, a, b);
  }

  /** A full-width count is read back as a different block. */
  lemma FullWidthCountIsNotExact()
    ensures var dims: Coord := [10, 5];
            Decode([5, 1], Weighted(Dsteps(dims), [1, 5])) == [2, 0]
  {
    var dims: Coord := [10, 5];
    assert Prod(dims[1..]) == 5 by { assert dims[1..] == [5] && dims[1..][1..] == []; }
    assert Dsteps(dims) == [5, 1] by {
      DstepsAt(dims, 1);
      assert dims[2..] == [];
    }
    EncodeIsLinear(dims, [1, 5]);
    assert Weighted([5, 1], [1, 5]) == 10 by {
      assert [5, 1][1..] == [1];
      assert [1, 5][1..] == [5];
    }
  }
}
