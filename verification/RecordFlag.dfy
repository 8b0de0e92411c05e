/** Requests that compare equal although one is a record write and the other is not: this takes step encoding,
    and then the two selections differ below the first dimension. */
module RecordFlag {
  import opened Grid
  import opened Radix
  import opened Bytes
  import opened MetaCodec
  import opened EntryCodec
  import opened Dedup

  /** Steps of an array one rank higher, without the first, and the step 1 in the place of the last. */
  function Shifted(dims: Coord): (r: seq<nat>)
    requires dims != []
    ensures |r| == |dims|
    decreases |dims|
  {
    if |dims| == 1 then [1] else [Prod(dims)] + Shifted(dims[1..])
  }

  lemma {:induction false} ProdAtLeastLast(dims: Coord)
    requires dims != [] && Positive(dims)
    ensures Prod(dims) >= dims[|dims| - 1] > 0
    decreases |dims|
  {
    if |dims| == 1 {
      assert dims[1..] == [];
    } else {
      ProdAtLeastLast(dims[1..]);
      MulMono(1, dims[0], Prod(dims[1..]));
    }
  }

  /** No coordinate in range weighs as much as the last dimension. */
  lemma {:induction false} NeverTheLast(dims: Coord, y: Coord)
    requires |dims| == |y| > 0 && forall k :: 0 <= k < |y| ==> y[k] < dims[k]
    ensures Weighted(Shifted(dims), y) != dims[|dims| - 1]
    decreases |dims|
  {
    if |dims| == 1 {
      assert Shifted(dims)[1..] == [] && y[1..] == [];
    } else {
      var t := dims[1..];
      assert Shifted(dims)[1..] == Shifted(t) && Shifted(dims)[0] == Prod(dims);
      NeverTheLast(t, y[1..]);
      if y[0] > 0 {
        ProdAtLeastLast(t);
        MulMono(2, dims[0], Prod(t));
        MulMono(1, y[0], Prod(dims));
      }
    }
  }

  lemma {:induction false} ShiftedAt(dims: Coord, k: nat)
    requires k < |dims|
    ensures Shifted(dims)[k] == if k < |dims| - 1 then Prod(dims[k..]) else 1
    decreases k
  {
    if k > 0 {
      ShiftedAt(dims[1..], k - 1);
      assert dims[1..][k - 1..] == dims[k..];
    } else {
      assert dims[0..] == dims;
    }
  }

  /** The words that two such selections have in common make the start of the record block weigh as much as the
      last dimension of the other dataset. */
  lemma StartsDiffer(d: Coord, e: Coord, x: Coord, y: Coord)
    requires |x| == |d| > 0 && |e| == |y| == |d| + 1 && InRadix(e, y)
    requires forall k :: 0 <= k < |d| - 1 ==> Dsteps(d)[k] == Dsteps(e)[k]
    requires Weighted(Dsteps(d), x) == Dsteps(e)[|d| - 1]
    ensures x != y[1..]
  {
    var n, t := |d|, e[1..];
    forall k | 0 <= k < n ensures Dsteps(d)[k] == Shifted(t)[k]
    {
      ShiftedAt(t, k);
      if k < n - 1 {
        DstepsAt(e, k);
        assert e[k + 1..] == t[k..];
      } else {
        LastIsOne(d);
      }
    }
    assert Dsteps(d) == Shifted(t);
    DstepsAt(e, n - 1);
    assert e[n..] == [e[n]] && [e[n]][1..] == [];
    if x == y[1..] {
      forall k | 0 <= k < n ensures x[k] < t[k] { assert y[k + 1] < e[k + 1]; }
      NeverTheLast(t, x);
    }
  }

  // ----- words in common -----

  lemma PrefixWords(n: nat, v: seq<nat>, w: seq<nat>, k: nat)
    requires Fits32(n) && AllFit(v) && AllFit(w) && k < |v| && k < |w|
    requires CountField(n) + Words(v) <= CountField(n) + Words(w) || CountField(n) + Words(w) <= CountField(n) + Words(v)
    ensures v[k] == w[k]
  {
    hide Words, CountField, Get64;
    var a, b := CountField(n) + Words(v), CountField(n) + Words(w);
    var buf := if a <= b then b else a;
    var p := |CountField(n)|;
    Stands(buf, p, v, a, n);
    Stands(buf, p, w, b, n);
    WordIs(buf, p, v, k);
    WordIs(buf, p, w, k);
  }

  lemma WordIs(buf: seq<byte>, p: nat, v: seq<nat>, k: nat)
    requires p + 8 * |v| <= |buf| && GetWords(buf, p, |v|) == v && k < |v|
    ensures v[k] == Get64(buf, p + 8 * k)
  {
    hide Get64;
    assert GetWords(buf, p, |v|)[k] == Get64(buf, p + 8 * k);
  }

  lemma Stands(buf: seq<byte>, p: nat, v: seq<nat>, a: seq<byte>, n: nat)
    requires Fits32(n) && AllFit(v) && a == CountField(n) + Words(v) && p == |CountField(n)| && a <= buf
    ensures p + 8 * |v| <= |buf| && GetWords(buf, p, |v|) == v
  {
    hide Words, CountField;
    assert At(buf, 0, a);
    AtSplit(buf, 0, CountField(n), Words(v));
    ReadWords(buf, p, v);
  }

  /** First start of a selection as the word behind the steps. */
  lemma StartWord(enc: bool, dims: Coord, bs: seq<Block>)
    requires Rank(|dims|, bs) && bs != [] && dims != [] && (!enc ==> |dims| == 1)
    ensures |SelWords(enc, dims, bs)| >= |dims| && SelWords(enc, dims, bs)[|dims| - 1] == Weighted(Dsteps(dims), bs[0].start)
    ensures forall k :: 0 <= k < |dims| - 1 ==> SelWords(enc, dims, bs)[k] == Dsteps(dims)[k]
  {
    if enc {
      var ws := SelWords(true, dims, bs);
      assert ws[|dims| - 1] == Positions(Dsteps(dims), StartsOf(bs))[0];
    } else {
      LastIsOne(dims);
      var s := bs[0].start;
      assert StartsOf(bs)[0] == s && Flat(StartsOf(bs))[0] == s[0];
      assert Dsteps(dims)[1..] == [] && s[1..] == [];
    }
  }

  lemma StepWords(dims: Coord, bs: seq<Block>)
    requires Rank(|dims|, bs) && dims != []
    ensures |SelWords(true, dims, bs)| >= |dims| - 1
    ensures forall k :: 0 <= k < |dims| - 1 ==> SelWords(true, dims, bs)[k] == Dsteps(dims)[k]
  {
  }

  /** Number of dimensions that are encoded when the sizes agree across the record flag. */
  lemma EncodedRanks(cfg: bool, e1: nat, e2: nat, n: nat, w1: nat, w2: nat)
    requires w1 == WordCount(UseSteps(cfg, e1, n), e1, n) && w2 == WordCount(UseSteps(cfg, e2, n), e2, n)
    requires n > 0 && 1 + w1 == w2 && e2 == e1 + 1
    ensures e1 > 0 && UseSteps(cfg, e2, n) && (!UseSteps(cfg, e1, n) ==> e1 == 1)
  {
    SmallDepth(e1, n);
    SmallDepth(e2, n);
    Distribute(e1, 1, n);
  }

  /** If a record write and another write compare equal, the first blocks of the two start at different places
      below the first dimension. */
  lemma FlagsTell(cfg: bool, a: Write, b: Write)
    requires WriteOk(cfg, a) && WriteOk(cfg, b) && IsRec(a.dset, a.blocks) && !IsRec(b.dset, b.blocks)
    requires MayEqual(NewReq(cfg, a, 0, 0), NewReq(cfg, b, 0, 0))
    ensures |a.dset.dims| == |b.dset.dims| > 1 && a.blocks[0].start[1..] != b.blocks[0].start[1..]
  {
    hide NewReq, MayEqual, SelWords, WordCount, IsRec, Dsteps;
    ShapeForced(cfg, a, b);
    EqualSizes(cfg, a, b);
    InnerRank(a.dset, a.blocks);
    InnerRank(b.dset, b.blocks);
    RecordShape(a);
    var d, e, n := a.dset.dims[1..], b.dset.dims, |a.blocks|;
    var x, y := InnerBlocks(true, a.blocks), InnerBlocks(false, b.blocks);
    assert y == b.blocks;
    EncodedRanks(cfg, |d|, |e|, n, SelCount(cfg, a), SelCount(cfg, b));
    var v, w := Words0(cfg, d, x), Words0(cfg, e, y);
    TailsCompare(cfg, a, b, v, w);
    StartWord(UseSteps(cfg, |d|, n), d, x);
    StepWords(e, y);
    forall k | 0 <= k < |d| ensures v[k] == w[k] { PrefixWords(n, v, w, k); }
    StepsDigits(cfg, b);
    StartsDiffer(d, e, x[0].start, y[0].start);
  }

  lemma RecordShape(a: Write)
    requires Rank(|a.dset.dims|, a.blocks) && IsRec(a.dset, a.blocks)
    ensures |a.dset.dims| > 0 && a.blocks != [] && InnerBlocks(true, a.blocks)[0].start == a.blocks[0].start[1..]
    ensures InnerDims(true, a.dset.dims) == a.dset.dims[1..]
  {
  }

  lemma StepsDigits(cfg: bool, b: Write)
    requires WriteOk(cfg, b) && !IsRec(b.dset, b.blocks) && UseSteps(cfg, |b.dset.dims|, |b.blocks|)
    ensures InRadix(b.dset.dims, b.blocks[0].start)
  {
    assert InnerBlocks(false, b.blocks)[0] == b.blocks[0];
  }

  lemma TailsCompare(cfg: bool, a: Write, b: Write, v: seq<nat>, w: seq<nat>)
    requires WriteOk(cfg, a) && WriteOk(cfg, b) && IsRec(a.dset, a.blocks) && !IsRec(b.dset, b.blocks) && |a.blocks| == |b.blocks|
    requires MayEqual(NewReq(cfg, a, 0, 0), NewReq(cfg, b, 0, 0))
    requires Rank(|a.dset.dims| - 1, InnerBlocks(true, a.blocks)) && v == Words0(cfg, a.dset.dims[1..], InnerBlocks(true, a.blocks))
    requires Rank(|b.dset.dims|, InnerBlocks(false, b.blocks)) && w == Words0(cfg, b.dset.dims, InnerBlocks(false, b.blocks))
    ensures Fits32(|a.blocks|) && AllFit(v) && AllFit(w)
    ensures CountField(|a.blocks|) + Words(v) <= CountField(|a.blocks|) + Words(w) ||
            CountField(|a.blocks|) + Words(w) <= CountField(|a.blocks|) + Words(v)
  {
    hide SelWords;
  }

  // ----- what equality means -----

  lemma SameSteps(d: Coord, e: Coord)
    requires |d| == |e| > 0 && Dsteps(d)[..|d| - 1] == Dsteps(e)[..|d| - 1]
    ensures Dsteps(d) == Dsteps(e)
  {
    LastIsOne(d);
    LastIsOne(e);
    SplitLast(Dsteps(d));
    SplitLast(Dsteps(e));
  }

  lemma SameTails(cfg: bool, a: Write, b: Write)
    requires WriteOk(cfg, a) && WriteOk(cfg, b) && SameRecord(a, b) && |a.dset.dims| == |b.dset.dims|
    requires var rec := IsRec(a.dset, a.blocks);
             var d, e := InnerDims(rec, a.dset.dims), InnerDims(rec, b.dset.dims);
             InnerBlocks(rec, a.blocks) == InnerBlocks(rec, b.blocks) &&
             (UseSteps(cfg, |d|, |a.blocks|) ==> Dsteps(d)[..|d| - 1] == Dsteps(e)[..|d| - 1])
    ensures MayEqual(NewReq(cfg, a, 0, 0), NewReq(cfg, b, 0, 0))
  {
    hide Encodes, Words, Dsteps, Flat, Positions;
    var rec := IsRec(a.dset, a.blocks);
    var d, e, ib := InnerDims(rec, a.dset.dims), InnerDims(rec, b.dset.dims), InnerBlocks(rec, a.blocks);
    InnerRank(a.dset, a.blocks);
    InnerRank(b.dset, b.blocks);
    assert |InnerBlocks(rec, b.blocks)| == |b.blocks|;
    if UseSteps(cfg, |d|, |a.blocks|) { SameSteps(d, e); }
    assert Words0(cfg, d, ib) == Words0(cfg, e, ib);
  }

  lemma SameStepWords(cfg: bool, a: Write, b: Write)
    requires WriteOk(cfg, a) && WriteOk(cfg, b) && SameRecord(a, b) && MayEqual(NewReq(cfg, a, 0, 0), NewReq(cfg, b, 0, 0))
    requires |a.blocks| == |b.blocks| && |a.dset.dims| == |b.dset.dims|
    ensures var rec := IsRec(a.dset, a.blocks);
            var d, e := InnerDims(rec, a.dset.dims), InnerDims(rec, b.dset.dims);
            UseSteps(cfg, |d|, |a.blocks|) ==> Dsteps(d)[..|d| - 1] == Dsteps(e)[..|d| - 1]
  {
    hide Encodes, Words, Dsteps, SelWords, CountField, IsRec;
    WriteRanks(cfg, a);
    WriteRanks(cfg, b);
    var rec, n := IsRec(a.dset, a.blocks), |a.blocks|;
    var d, e := InnerDims(rec, a.dset.dims), InnerDims(rec, b.dset.dims);
    InnerRank(a.dset, a.blocks);
    InnerRank(b.dset, b.blocks);
    if UseSteps(cfg, |d|, n) {
      var v, w := Words0(cfg, d, InnerBlocks(rec, a.blocks)), Words0(cfg, e, InnerBlocks(rec, b.blocks));
      StepWords(d, InnerBlocks(rec, a.blocks));
      StepWords(e, InnerBlocks(rec, b.blocks));
      forall k | 0 <= k < |d| - 1 ensures v[k] == w[k] { PrefixWords(n, v, w, k); }
    }
  }

  /** Two record writes, or two other ones, of datasets of the same rank compare equal exactly if their selections are
      the same below the record dimension and, where they are step-encoded, the steps are the same. */
  lemma EqualExactly(cfg: bool, a: Write, b: Write)
    requires WriteOk(cfg, a) && WriteOk(cfg, b) && SameRecord(a, b) && |a.dset.dims| == |b.dset.dims|
    ensures var rec := IsRec(a.dset, a.blocks);
            var d, e := InnerDims(rec, a.dset.dims), InnerDims(rec, b.dset.dims);
            MayEqual(NewReq(cfg, a, 0, 0), NewReq(cfg, b, 0, 0)) <==>
              InnerBlocks(rec, a.blocks) == InnerBlocks(rec, b.blocks) &&
              (UseSteps(cfg, |d|, |a.blocks|) ==> Dsteps(d)[..|d| - 1] == Dsteps(e)[..|d| - 1])
  {
    hide WriteOk, NewReq, MayEqual, IsRec, Dsteps;
    WriteRanks(cfg, a);
    WriteRanks(cfg, b);
    if MayEqual(NewReq(cfg, a, 0, 0), NewReq(cfg, b, 0, 0)) {
      EqualSelections(cfg, a, b);
      SameStepWords(cfg, a, b);
    }
    var rec := IsRec(a.dset, a.blocks);
    var d, e := InnerDims(rec, a.dset.dims), InnerDims(rec, b.dset.dims);
    if InnerBlocks(rec, a.blocks) == InnerBlocks(rec, b.blocks) && (UseSteps(cfg, |d|, |a.blocks|) ==> Dsteps(d)[..|d| - 1] == Dsteps(e)[..|d| - 1]) {
      SameTails(cfg, a, b);
    }
  }

  lemma WriteRanks(cfg: bool, a: Write)
    requires WriteOk(cfg, a)
    ensures Rank(|a.dset.dims|, a.blocks) && a.blocks != [] && (IsRec(a.dset, a.blocks) ==> a.dset.dims != [])
    ensures IsRec(a.dset, a.blocks) ==> forall i :: 0 <= i < |a.blocks| ==> |a.blocks[i].start| == |a.blocks[i].count| > 0
  {
  }
}
