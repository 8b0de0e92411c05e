/** The break-down loop of the read planner: an odometer over the leading dimensions of an intersection that
    writes one file range per row. */
module RunBreakDown {
  import opened Grid
  import opened Radix
  import opened Rows
  import opened IndexSearch
  import opened SortOffsets
  import opened Trim
  import opened ReadPlan
  import RowBreakDown

  /** Bytes in the subspace below each dimension. */
  method SubspaceSizes(size: Coord, esize: nat) returns (fs: seq<nat>)
    requires |size| > 0
    ensures |fs| == |size| && forall k :: 0 <= k < |size| ==> fs[k] == Dsteps(size)[k] * esize
  {
    var n := |size|;
    fs := seq(n, i => esize);
    DstepsAt(size, n - 1);
    assert size[n..] == [];
    var k := n - 1;
    while k > 0
      invariant 0 <= k < n && |fs| == n
      invariant forall i :: k <= i < n ==> fs[i] == Dsteps(size)[i] * esize
    {
      k := k - 1;
      DstepsAt(size, k);
      DstepsAt(size, k + 1);
      assert size[k + 1..][1..] == size[k + 2..];
      Regroup(Dsteps(size)[k + 1], esize, size[k + 1]);
      fs := fs[k := fs[k + 1] * size[k + 1]];
    }
  }

  lemma Regroup(d: nat, e: nat, s: nat)
    ensures (d * e) * s == (s * d) * e
  {
  }

  lemma {:induction false} ScaledWeights(size: Coord, fs: seq<nat>, c: Coord, esize: nat)
    requires |size| == |fs| == |c| && forall k :: 0 <= k < |fs| ==> fs[k] == Dsteps(size)[k] * esize
    ensures Weighted(fs, c) == Linear(size, c) * esize
    decreases |c|
  {
    if c != [] {
      forall k | 0 <= k < |fs[1..]| ensures fs[1..][k] == Dsteps(size[1..])[k] * esize { assert fs[k + 1] == Dsteps(size)[k + 1] * esize; }
      ScaledWeights(size[1..], fs[1..], c[1..], esize);
      Terms(c[0], Prod(size[1..]), Linear(size[1..], c[1..]), esize);
    }
  }

  lemma Terms(c: nat, p: nat, l: nat, e: nat)
    ensures c * (p * e) + l * e == (c * p + l) * e
  {
  }

  /** The offset loop: position of a counter, in bytes, from the sizes of the subspaces. */
  method OffsetAt(base: int, fs: seq<nat>, start: Coord, ctr: Coord) returns (off: int)
    requires |fs| == |start| == |ctr|
    ensures off == base + Weighted(fs, Add(start, ctr))
  {
    off := base;
    var k := 0;
    ghost var c := Add(start, ctr);
    while k < |fs|
      invariant 0 <= k <= |fs| && off == base + Weighted(fs[..k], c[..k])
    {
      WeightedSnoc(fs, c, k);
      off := off + fs[k] * (start[k] + ctr[k]);
      k := k + 1;
    }
    assert fs[..k] == fs && c[..k] == c;
  }

  /** Moves the counter to the next row: increment the last leading digit, carry to the left. */
  method NextCounter(dims: Coord, ctr: Coord) returns (next: Coord)
    requires |dims| > 0 && InBounds(dims, ctr)
    ensures |next| == |dims| && Linear(dims, next) == Linear(dims, ctr) + 1
    ensures if Linear(dims, ctr) + 1 < Prod(dims) then InBounds(dims, next) else next[0] >= dims[0]
  {
    var n := |dims|;
    Bump(dims, ctr);
    next := ctr[n - 1 := ctr[n - 1] + 1];
    var k := n - 1;
    while k > 0
      invariant 0 <= k < n && RowBreakDown.Carrying(dims, next, k) && Linear(dims, next) == Linear(dims, ctr) + 1
    {
      if next[k] >= dims[k] {
        Carry(dims, next, k);
        next := next[k := 0][k - 1 := next[k - 1] + 1];
      }
      k := k - 1;
    }
    if next[0] >= dims[0] {
      RowBreakDown.LinearAtLeast(dims, next);
    } else {
      LinearBound(dims, next);
    }
  }

  /** The first t runs of b stand in the output from nt on. */
  ghost predicate RunsOut(b: Blk, now: seq<Piece>, was: seq<Piece>, nt: nat, t: nat)
    requires Ok(b)
  {
    nt + t <= |now| == |was| && t <= RunCount(b) && now[..nt] == was[..nt] &&
    forall i {:trigger now[i]} :: nt <= i < nt + t ==> now[i] == RunNo(b, i - nt)
  }

  lemma RunsOutStep(b: Blk, now: seq<Piece>, was: seq<Piece>, nt: nat, t: nat, p: Piece)
    requires Ok(b) && RunsOut(b, now, was, nt, t) && t < RunCount(b) && nt + t < |now| && p == RunNo(b, t)
    ensures RunsOut(b, now[nt + t := p], was, nt, t + 1)
  {
    hide RunNo, RunCount, Ok;
  }

  lemma RunsOutAll(b: Blk, now: seq<Piece>, was: seq<Piece>, nt: nat)
    requires Ok(b) && RunsOut(b, now, was, nt, RunCount(b))
    ensures now[..nt + RunCount(b)] == was[..nt] + Runs(b)
  {
    hide RunNo, RunCount, Ok;
  }

  method PutRun(b: Blk, fs: seq<nat>, ms: seq<nat>, a: array<Piece>, nt: nat, t: nat, ctr: Coord, ghost was: seq<Piece>)
    requires Ok(b) && Rk(b) > 0 && InBounds(Leading(b), ctr) && Linear(Leading(b), ctr) == t
    requires |fs| == |ms| == Rk(b)
    requires forall k :: 0 <= k < Rk(b) ==> fs[k] == Dsteps(b.isect.dsize)[k] * b.esize && ms[k] == Dsteps(b.isect.msize)[k] * b.esize
    requires RunsOut(b, a[..], was, nt, t) && nt + t < a.Length
    modifies a
    ensures RunsOut(b, a[..], was, nt, t + 1)
  {
    hide RunsOut, Weighted, Linear, Dsteps;
    RunAtCounter(b, ctr);
    var n := Rk(b);
    var foff := OffsetAt(Base(b), fs, b.isect.dstart, ctr + [0]);
    var moff := OffsetAt(Dest(b), ms, b.isect.mstart, ctr + [0]);
    ScaledWeights(b.isect.dsize, fs, Add(b.isect.dstart, ctr + [0]), b.esize);
    ScaledWeights(b.isect.msize, ms, Add(b.isect.mstart, ctr + [0]), b.esize);
    RunsOutStep(b, a[..], was, nt, t, RunNo(b, t));
    a[nt + t] := Piece(foff, moff, b.isect.count[n - 1] * b.esize);
  }

  /** Writes the runs of a block of positive rank behind the nt ranges that are there. */
  method BreakDownBlock(b: Blk, a: array<Piece>, nt: nat) returns (to: nat)
    requires Ok(b) && Rk(b) > 0 && nt + RunCount(b) <= a.Length
    modifies a
    ensures to == nt + RunCount(b) && a[..to] == old(a[..nt]) + Runs(b)
  {
    hide Ok, RunsOut, RunNo, Linear, Dsteps, Prod;
    OkRank(b);
    var n := Rk(b);
    var dims := Leading(b);
    var fs := SubspaceSizes(b.isect.dsize, b.esize);
    var ms := SubspaceSizes(b.isect.msize, b.esize);
    ghost var was := a[..];
    var ctr: Coord := seq(n - 1, i => 0);
    StartCounter(b, was, nt, ctr);
    PutRun(b, fs, ms, a, nt, 0, ctr, was);
    var t := 1;
    if n >= 2 {
      ctr := NextCounter(dims, ctr);
      while ctr[0] < dims[0]
        invariant |ctr| == n - 1 && 0 < t <= RunCount(b) && Linear(dims, ctr) == t
        invariant if t < RunCount(b) then InBounds(dims, ctr) else ctr[0] >= dims[0]
        invariant RunsOut(b, a[..], was, nt, t)
        decreases RunCount(b) - t
      {
        PutRun(b, fs, ms, a, nt, t, ctr, was);
        ctr := NextCounter(dims, ctr);
        t := t + 1;
      }
      assert t == RunCount(b);
    } else {
      OneRun(b);
    }
    to := nt + t;
    RunsOutAll(b, a[..], was, nt);
  }

  lemma OkRank(b: Blk)
    requires Ok(b)
    ensures |b.isect.dsize| == |b.isect.msize| == |b.isect.dstart| == |b.isect.mstart| == |b.isect.count|
  {
  }

  lemma OneRun(b: Blk)
    requires Rk(b) == 1
    ensures RunCount(b) == 1
  {
  }

  lemma StartCounter(b: Blk, was: seq<Piece>, nt: nat, ctr: Coord)
    requires Ok(b) && Rk(b) > 0 && nt <= |was| && ctr == seq(Rk(b) - 1, i => 0)
    ensures InBounds(Leading(b), ctr) && Linear(Leading(b), ctr) == 0 && RunCount(b) > 0 && RunsOut(b, was, was, nt, 0)
  {
    LeadingPositive(b);
    ProdPositive(Leading(b));
    RowBreakDown.LinearZero(Leading(b), ctr);
  }
}
