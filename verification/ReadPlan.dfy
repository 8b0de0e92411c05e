/** The read planner: intersections in file order, groups of interleaving ones, and the contiguous runs that
    each group is broken down into. */
module ReadPlan {
  import opened Grid
  import opened Radix
  import opened Rows
  import opened IndexSearch
  import opened SortOffsets
  import opened Trim

  /** An intersection with the element size of its dataset and the address of its request's buffer. */
  datatype Blk = Blk(isect: Isect, esize: nat, xbuf: int)

  function Base(b: Blk): int { b.isect.foff + b.isect.doff }

  function Dest(b: Blk): int { b.xbuf + b.isect.soff }

  function Rk(b: Blk): nat { |b.isect.count| }

  predicate Fits(start: Coord, count: Coord, size: Coord)
    requires |start| == |count| == |size|
  {
    forall k :: 0 <= k < |count| ==> start[k] + count[k] <= size[k]
  }

  ghost predicate Ok(b: Blk)
  {
    var i := b.isect;
    |i.dstart| == |i.dsize| == |i.mstart| == |i.msize| == |i.count| && Positive(i.count) && b.esize > 0 &&
    Fits(i.dstart, i.count, i.dsize) && Fits(i.mstart, i.count, i.msize)
  }

  ghost predicate AllOk(bs: seq<Blk>) { forall i :: 0 <= i < |bs| ==> Ok(bs[i]) }

  // ----- runs of a block -----

  /** File offset and memory address of the element at u of the intersection. */
  function FileAt(b: Blk, u: Coord): int
    requires Ok(b) && |u| == Rk(b)
  {
    Base(b) + Linear(b.isect.dsize, Add(b.isect.dstart, u)) * b.esize
  }

  function MemAt(b: Blk, u: Coord): int
    requires Ok(b) && |u| == Rk(b)
  {
    Dest(b) + Linear(b.isect.msize, Add(b.isect.mstart, u)) * b.esize
  }

  function RowLen(b: Blk): nat
    requires Ok(b)
  {
    if Rk(b) == 0 then b.esize else b.isect.count[Rk(b) - 1] * b.esize
  }

  /** The run at counter c of the leading dimensions. */
  function RunOf(b: Blk, c: Coord): (p: Piece)
    requires Ok(b) && |c| + 1 == Rk(b)
  {
    Piece(FileAt(b, c + [0]), MemAt(b, c + [0]), RowLen(b))
  }

  function Leading(b: Blk): (dims: Coord)
    requires Rk(b) > 0
  {
    Front(b.isect.count)
  }

  lemma LeadingPositive(b: Blk)
    requires Ok(b) && Rk(b) > 0
    ensures Positive(Leading(b)) && Positive(Dsteps(Leading(b)))
  {
    var d := Leading(b);
    forall k | 0 <= k < |d| ensures d[k] > 0 { assert d[k] == b.isect.count[k]; }
    if d != [] { forall k | 0 <= k < |d[1..]| ensures d[1..][k] > 0 { assert d[1..][k] == d[k + 1]; } }
    DstepsPositive(d);
  }

  /** Number of runs. */
  function RunCount(b: Blk): nat
  {
    if Rk(b) == 0 then 1 else Prod(Leading(b))
  }

  /** Run number t of a block. */
  function RunNo(b: Blk, t: nat): Piece
    requires Ok(b)
  {
    if Rk(b) == 0 then Piece(FileAt(b, []), MemAt(b, []), RowLen(b))
    else
      LeadingPositive(b);
      RunOf(b, Decode(Dsteps(Leading(b)), t))
  }

  /** The contiguous runs of a block, in row-major order: the type map of the subarray types built for it. */
  function Runs(b: Blk): (ps: seq<Piece>)
    requires Ok(b)
    ensures |ps| == RunCount(b)
  {
    seq(RunCount(b), t requires 0 <= t < RunCount(b) => RunNo(b, t))
  }

  // ----- bytes of a run -----

  lemma Along(dims: Coord, c: Coord, j: nat)
    requires |dims| == |c| > 0
    ensures Linear(dims, c[|c| - 1 := c[|c| - 1] + j]) == Linear(dims, c) + j
  {
    LinearUpdate(dims, c, |c| - 1, c[|c| - 1] + j);
    assert dims[|c|..] == [];
  }

  /** Element j of the run at counter c. */
  lemma RunElement(b: Blk, c: Coord, j: nat)
    requires Ok(b) && |c| + 1 == Rk(b)
    ensures FileAt(b, c + [j]) == RunOf(b, c).foff + j * b.esize && MemAt(b, c + [j]) == RunOf(b, c).moff + j * b.esize
  {
    hide Linear;
    var d, m := Add(b.isect.dstart, c + [0]), Add(b.isect.mstart, c + [0]);
    Along(b.isect.dsize, d, j);
    Along(b.isect.msize, m, j);
    assert Add(b.isect.dstart, c + [j]) == d[|d| - 1 := d[|d| - 1] + j];
    assert Add(b.isect.mstart, c + [j]) == m[|m| - 1 := m[|m| - 1] + j];
    Distribute(Linear(b.isect.dsize, d), j, b.esize);
    Distribute(Linear(b.isect.msize, m), j, b.esize);
  }

  /** A byte of a run is byte k of some element of the intersection, in file and memory. */
  lemma ByteOfRun(b: Blk, t: nat, a: int) returns (u: Coord, k: nat)
    requires Ok(b) && t < RunCount(b) && Into(RunNo(b, t), a)
    ensures InBounds(b.isect.count, u) && k < b.esize && a == MemAt(b, u) + k
    ensures RunNo(b, t).foff + (a - RunNo(b, t).moff) == FileAt(b, u) + k
  {
    hide Linear, Decode, Dsteps, FileAt, MemAt;
    var p := RunNo(b, t);
    if Rk(b) == 0 {
      u, k := [], a - p.moff;
    } else {
      LeadingPositive(b);
      var dims := Leading(b);
      var c := Decode(Dsteps(dims), t);
      CounterInBounds(b, t);
      var o: nat := a - p.moff;
      var j := o / b.esize;
      k := o % b.esize;
      DivBound(o, b.isect.count[Rk(b) - 1], b.esize);
      RunElement(b, c, j);
      u := c + [j];
      forall i | 0 <= i < |u| ensures u[i] < b.isect.count[i] { if i < |c| { assert c[i] < dims[i]; } }
    }
  }

  lemma CounterInBounds(b: Blk, t: nat)
    requires Ok(b) && Rk(b) > 0 && t < Prod(Leading(b))
    ensures Positive(Dsteps(Leading(b))) && InBounds(Leading(b), Decode(Dsteps(Leading(b)), t))
    ensures Linear(Leading(b), Decode(Dsteps(Leading(b)), t)) == t
  {
    LeadingPositive(b);
    var d := Leading(b);
    if d != [] {
      forall k | 0 <= k < |d[1..]| ensures d[1..][k] > 0 { assert d[1..][k] == d[k + 1]; }
      DecodeDigits(d, t);
    }
  }

  lemma DivBound(o: nat, n: nat, e: nat)
    requires e > 0 && o < n * e
    ensures o / e < n && o == (o / e) * e + o % e
  {
    if o / e >= n { MulMono(n, o / e, e); }
  }

  /** Run number Linear(c) is the one at counter c. */
  lemma RunAtCounter(b: Blk, c: Coord)
    requires Ok(b) && Rk(b) > 0 && InBounds(Leading(b), c)
    ensures Linear(Leading(b), c) < RunCount(b) && RunNo(b, Linear(Leading(b), c)) == RunOf(b, c)
  {
    LeadingPositive(b);
    var dims := Leading(b);
    LinearBound(dims, c);
    if dims != [] {
      forall k | 0 <= k < |dims[1..]| ensures dims[1..][k] > 0 { assert dims[1..][k] == dims[k + 1]; }
      DecodeLinear(dims, c);
    }
    assert Decode(Dsteps(dims), Linear(dims, c)) == c;
  }

  /** Every byte of every element of the intersection is in a run. */
  lemma RunOfByte(b: Blk, u: Coord, k: nat) returns (t: nat)
    requires Ok(b) && InBounds(b.isect.count, u) && k < b.esize
    ensures t < RunCount(b) && Into(RunNo(b, t), MemAt(b, u) + k)
    ensures RunNo(b, t).foff + (MemAt(b, u) + k - RunNo(b, t).moff) == FileAt(b, u) + k
  {
    hide FileAt, MemAt;
    if Rk(b) == 0 {
      t := 0;
      assert u == [];
    } else {
      var dims, c, j := Leading(b), Front(u), u[|u| - 1];
      assert u == c + [j];
      forall i | 0 <= i < |c| ensures c[i] < dims[i] { assert c[i] == u[i] && dims[i] == b.isect.count[i]; }
      t := Linear(dims, c);
      RunAtCounter(b, c);
      hide RunNo, RunCount;
      RunElement(b, c, j);
      MulMono(j + 1, b.isect.count[Rk(b) - 1], b.esize);
      Distribute(j, 1, b.esize);
    }
  }
}
