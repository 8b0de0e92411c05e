/** Metadata entries as bytes: what the write-request constructor lays down and what the entry decoder
    reads back. */
module EntryCodec {
  import opened Grid
  import opened Radix
  import opened Bytes
  import opened MetaCodec

  // ----- shape of an entry -----

  /** A record write: the leading dimension is unlimited and every block lies in the same record. */
  predicate IsRec(d: Dset, bs: seq<Block>)
    requires Rank(|d.dims|, bs)
  {
    d.dims != [] && d.unlimited && bs != [] &&
    forall i :: 0 <= i < |bs| ==> bs[i].count[0] == 1 && bs[i].start[0] == bs[0].start[0]
  }

  predicate UseSteps(cfg: bool, encdim: nat, nsel: nat) { nsel > 1 && encdim > 1 && cfg }

  /** The dimensions and blocks that are encoded: all, or all but the record dimension. */
  function InnerDims(rec: bool, dims: Coord): (r: Coord)
    requires rec ==> dims != []
  {
    if rec then dims[1..] else dims
  }

  function InnerBlocks(rec: bool, bs: seq<Block>): (r: seq<Block>)
    requires rec ==> forall i :: 0 <= i < |bs| ==> |bs[i].start| == |bs[i].count| > 0
    ensures |r| == |bs|
  {
    seq(|bs|, i requires 0 <= i < |bs| => if rec then Tail(bs[i]) else bs[i])
  }

  /** Puts the record number back in front of blocks that were encoded without it. */
  function InRecord(recnum: nat, bs: seq<Block>): (r: seq<Block>)
    ensures |r| == |bs|
  {
    seq(|bs|, i requires 0 <= i < |bs| => Block([recnum] + bs[i].start, [1] + bs[i].count))
  }

  lemma RecordRoundTrip(d: Dset, bs: seq<Block>)
    requires Rank(|d.dims|, bs) && IsRec(d, bs)
    ensures InRecord(bs[0].start[0], InnerBlocks(true, bs)) == bs
  {
    forall i | 0 <= i < |bs|
      ensures InRecord(bs[0].start[0], InnerBlocks(true, bs))[i] == bs[i]
    {
      assert bs[i].start == [bs[i].start[0]] + bs[i].start[1..];
      assert bs[i].count == [bs[i].count[0]] + bs[i].count[1..];
    }
  }

  // ----- the part after the record number -----

  function Words0(cfg: bool, dims: Coord, bs: seq<Block>): seq<nat>
    requires Rank(|dims|, bs)
  {
    SelWords(UseSteps(cfg, |dims|, |bs|), dims, bs)
  }

  predicate TailFits(cfg: bool, dims: Coord, bs: seq<Block>)
    requires Rank(|dims|, bs)
  {
    Fits32(|bs|) && AllFit(Words0(cfg, dims, bs))
  }

  function CountField(nsel: nat): (r: seq<byte>)
    requires Fits32(nsel)
    ensures |r| == if nsel > 1 then 4 else 0
  {
    if nsel > 1 then I32(nsel) else []
  }

  function TailBytes(cfg: bool, dims: Coord, bs: seq<Block>): (r: seq<byte>)
    requires Rank(|dims|, bs) && TailFits(cfg, dims, bs)
    ensures |r| == (if |bs| > 1 then 4 else 0) + 8 * |Words0(cfg, dims, bs)|
  {
    CountField(|bs|) + Words(Words0(cfg, dims, bs))
  }

  /** The blocks read from position p on; None where the program would read outside the buffer or where
      the bytes are not those of an encoder. */
  function ReadTail(mul: bool, enc: bool, encdim: nat, buf: seq<byte>, p: nat): (r: Option<seq<Block>>)
  {
    if (mul && p + 4 > |buf|) || (enc && encdim == 0) then None else
      var nsel := if mul then Get32(buf, p) else 1;
      var q := if mul then p + 4 else p;
      if nsel <= 0 || q + 8 * WordCount(enc, encdim, nsel) > |buf| then None else
        DecodeWords(enc, encdim, nsel, GetWords(buf, q, WordCount(enc, encdim, nsel)))
  }

  /** The selection survives unless it is step-encoded and has a coordinate that the steps cannot carry. */
  lemma TailRoundTrip(cfg: bool, dims: Coord, bs: seq<Block>, buf: seq<byte>, p: nat)
    requires Rank(|dims|, bs) && bs != [] && TailFits(cfg, dims, bs)
    requires At(buf, p, TailBytes(cfg, dims, bs))
    ensures ReadTail(|bs| > 1, UseSteps(cfg, |dims|, |bs|), |dims|, buf, p) == Some(bs)
       <==> (UseSteps(cfg, |dims|, |bs|) ==> Encodable(dims, bs))
  {
    var enc := UseSteps(cfg, |dims|, |bs|);
    var ws := Words0(cfg, dims, bs);
    var q := p + |CountField(|bs|)|;
    AtSplit(buf, p, CountField(|bs|), Words(ws));
    if |bs| > 1 { Read32(buf, p, |bs|); }
    SelWordsLen(enc, dims, bs);
    ReadWords(buf, q, ws);
    AnyWordsRoundTrip(enc, dims, bs);
  }

  lemma {:induction false} ZeroProd(dims: Coord, k: nat)
    requires k < |dims| && dims[k] == 0
    ensures Prod(dims) == 0
    decreases |dims|
  {
    if k > 0 { ZeroProd(dims[1..], k - 1); }
  }

  /** The words round trip without an assumption on the extents: a zero extent makes a zero step, which no
      decoder accepts and no coordinate is below. */
  lemma AnyWordsRoundTrip(enc: bool, dims: Coord, bs: seq<Block>)
    requires Rank(|dims|, bs) && bs != [] && (enc ==> |dims| > 0)
    ensures |SelWords(enc, dims, bs)| == WordCount(enc, |dims|, |bs|)
    ensures DecodeWords(enc, |dims|, |bs|, SelWords(enc, dims, bs)) == Some(bs) <==> (enc ==> Encodable(dims, bs))
  {
    if enc ==> Positive(dims[1..]) {
      WordsRoundTrip(enc, dims, bs);
    } else {
      SelWordsLen(enc, dims, bs);
      var k :| 0 <= k < |dims[1..]| && dims[1..][k] == 0;
      ZeroProd(dims[1..], k);
      assert !InRadix(dims, bs[0].start) by { assert dims[k + 1] == 0; }
      assert Dsteps(dims)[0] == 0;
      assert SelWords(enc, dims, bs)[..|dims| - 1][0] == 0;
    }
  }

  // ----- data offsets -----

  /** Blocks with the offsets of their data: the sizes of the blocks before them. */
  function WithOffsets(esize: nat, base: nat, bs: seq<Block>): (r: seq<Sel>)
    ensures |r| == |bs|
    decreases |bs|
  {
    if bs == [] then [] else
      [Sel(bs[0].start, bs[0].count, base)] + WithOffsets(esize, base + Prod(bs[0].count) * esize, bs[1..])
  }

  /** Number of elements of a selection: `get_sel_size`. */
  function SelSize(bs: seq<Block>): nat
    decreases |bs|
  {
    if bs == [] then 0 else Prod(bs[0].count) + SelSize(bs[1..])
  }

  /** Block i of an entry and its data offset: the data of the blocks tile [0, SelSize * esize) in order. */
  lemma {:induction false} OffsetsTile(esize: nat, base: nat, bs: seq<Block>, i: nat)
    requires i < |bs|
    ensures var s := WithOffsets(esize, base, bs)[i];
            s.start == bs[i].start && s.count == bs[i].count && s.doff == base + SelSize(bs[..i]) * esize
    ensures WithOffsets(esize, base, bs)[i].doff + Prod(bs[i].count) * esize
         == if i + 1 < |bs| then WithOffsets(esize, base, bs)[i + 1].doff else base + SelSize(bs) * esize
    decreases |bs|
  {
    var t := base + Prod(bs[0].count) * esize;
    Distribute(Prod(bs[0].count), SelSize(bs[1..]), esize);
    if i == 0 {
      assert bs[..0] == [];
      assert bs[1..] == [] ==> SelSize(bs[1..]) == 0;
    } else {
      OffsetsTile(esize, t, bs[1..], i - 1);
      assert bs[..i][1..] == bs[1..][..i - 1];
      Distribute(Prod(bs[0].count), SelSize(bs[1..][..i - 1]), esize);
    }
  }

  /** The offset loop of the decoder: each block starts where its predecessor's data end. */
  method FillOffsets(esize: nat, bs: seq<Block>) returns (sels: seq<Sel>)
    requires bs != []
    ensures sels == WithOffsets(esize, 0, bs)
  {
    sels := [Sel(bs[0].start, bs[0].count, 0)];
    OffsetsTile(esize, 0, bs, 0);
    var i := 1;
    while i < |bs|
      invariant 1 <= i <= |bs| && sels == WithOffsets(esize, 0, bs)[..i]
    {
      OffsetsTile(esize, 0, bs, i);
      OffsetsTile(esize, 0, bs, i - 1);
      var size := BlockBytes(esize, bs[i - 1].count);
      sels := sels + [Sel(bs[i].start, bs[i].count, size + sels[i - 1].doff)];
      i := i + 1;
    }
  }

  method BlockBytes(esize: nat, count: Coord) returns (size: nat)
    ensures size == Prod(count) * esize
  {
    size := esize;
    var j := 0;
    while j < |count|
      invariant 0 <= j <= |count| && size == Prod(count[..j]) * esize
    {
      ProdSnoc(count, j);
      Rotate(Prod(count[..j]), esize, count[j]);
      size := size * count[j];
      j := j + 1;
    }
    assert count[..j] == count;
  }

  lemma Rotate(a: nat, e: nat, c: nat)
    ensures (a * e) * c == (a * c) * e
  {
  }

  // ----- whole entries -----

  function EntryFlags(cfg: bool, d: Dset, bs: seq<Block>): Flags
    requires Rank(|d.dims|, bs)
  {
    var rec := IsRec(d, bs);
    Flags(|bs| > 1, UseSteps(cfg, |InnerDims(rec, d.dims)|, |bs|), false, rec)
  }

  lemma InnerRank(d: Dset, bs: seq<Block>)
    requires Rank(|d.dims|, bs)
    ensures var rec := IsRec(d, bs); Rank(|InnerDims(rec, d.dims)|, InnerBlocks(rec, bs))
  {
  }

  ghost predicate Encodes(cfg: bool, d: Dset, bs: seq<Block>)
    requires Rank(|d.dims|, bs)
  {
    var rec := IsRec(d, bs);
    EntryFlags(cfg, d, bs).enc ==> Encodable(InnerDims(rec, d.dims), InnerBlocks(rec, bs))
  }

  ghost predicate BodyFits(cfg: bool, d: Dset, bs: seq<Block>)
    requires Rank(|d.dims|, bs) && bs != []
  {
    InnerRank(d, bs);
    var rec := IsRec(d, bs);
    TailFits(cfg, InnerDims(rec, d.dims), InnerBlocks(rec, bs)) && (rec ==> Fits64(bs[0].start[0]))
  }

  ghost function EntryTail(cfg: bool, d: Dset, bs: seq<Block>): (r: seq<byte>)
    requires Rank(|d.dims|, bs) && bs != [] && BodyFits(cfg, d, bs)
  {
    InnerRank(d, bs);
    TailBytes(cfg, InnerDims(IsRec(d, bs), d.dims), InnerBlocks(IsRec(d, bs), bs))
  }

  function RecField(rec: bool, recnum: nat): (r: seq<byte>)
    requires rec ==> Fits64(recnum)
    ensures |r| == if rec then 8 else 0
  {
    if rec then I64(recnum) else []
  }

  function RecNum(bs: seq<Block>): nat
    requires bs != []
  {
    if bs[0].start == [] then 0 else bs[0].start[0]
  }

  /** Everything after the header: record number if any, then the selection. */
  ghost function EntryBody(cfg: bool, d: Dset, bs: seq<Block>): (r: seq<byte>)
    requires Rank(|d.dims|, bs) && bs != [] && BodyFits(cfg, d, bs)
  {
    RecField(IsRec(d, bs), RecNum(bs)) + EntryTail(cfg, d, bs)
  }

  /** The entry at position p of a buffer, as `H5VL_logi_metaentry_decode` reads it; None where the program
      raises an error or leaves its buffer. Of the dataset only rank and element size matter. */
  function DecodeEntry(d: Dset, buf: seq<byte>, p: nat): (r: Option<Entry>)
  {
    if p + HDRSIZE > |buf| then None else
      var h := GetHdr(buf, p);
      var f := h.flag;
      var q := p + HDRSIZE;
      if h.metaSize <= 0 then None
      else if f.rec then
        if q + 8 > |buf| || d.dims == [] || Get64(buf, q) < 0 then None else
          match ReadTail(f.mul, f.enc, |d.dims| - 1, buf, q + 8)
          case None => None
          case Some(bs) => Some(Entry(h, WithOffsets(d.esize, 0, InRecord(Get64(buf, q), bs))))
      else
        match ReadTail(f.mul, f.enc, |d.dims|, buf, q)
        case None => None
        case Some(bs) => Some(Entry(h, WithOffsets(d.esize, 0, bs)))
  }

  /** Datasets that the decoder cannot tell apart: an extent may have been set in between. */
  predicate SameType(a: Dset, b: Dset) { |a.dims| == |b.dims| && a.esize == b.esize }

  lemma {:induction false} OffsetsInjective(esize: nat, base: nat, a: seq<Block>, b: seq<Block>)
    requires WithOffsets(esize, base, a) == WithOffsets(esize, base, b)
    ensures a == b
    decreases |a|
  {
    assert |WithOffsets(esize, base, a)| == |WithOffsets(esize, base, b)|;
    if a != [] {
      assert WithOffsets(esize, base, a)[0] == WithOffsets(esize, base, b)[0];
      assert WithOffsets(esize, base, a)[1..] == WithOffsets(esize, base, b)[1..];
      OffsetsInjective(esize, base + Prod(a[0].count) * esize, a[1..], b[1..]);
      assert a == [a[0]] + a[1..] && b == [b[0]] + b[1..];
    }
  }

  /** The blocks the decoder makes of the part after the record number. */
  function Back(rec: bool, recnum: nat, got: Option<seq<Block>>): Option<seq<Block>>
  {
    match got
    case None => None
    case Some(bs) => Some(if rec then InRecord(recnum, bs) else bs)
  }

  lemma DecodeSteps(d: Dset, buf: seq<byte>, p: nat, h: Hdr, f: Flags, recnum: nat, got: Option<seq<Block>>)
    requires HdrFits(h) && h.metaSize > 0 && h.flag == f && Fits64(recnum) && (f.rec ==> d.dims != [])
    requires At(buf, p, HdrBytes(h) + RecField(f.rec, recnum))
    requires got == ReadTail(f.mul, f.enc, |InnerDims(f.rec, d.dims)|, buf, p + HDRSIZE + if f.rec then 8 else 0)
    ensures var r := Back(f.rec, recnum, got);
            DecodeEntry(d, buf, p) == if r.None? then None else Some(Entry(h, WithOffsets(d.esize, 0, r.value)))
  {
    AtSplit(buf, p, HdrBytes(h), RecField(f.rec, recnum));
    ReadHdr(buf, p, h);
    if f.rec { Read64(buf, p + HDRSIZE, recnum); }
  }

  lemma BackIs(rec: bool, recnum: nat, got: Option<seq<Block>>, ib: seq<Block>, bs: seq<Block>)
    requires bs == if rec then InRecord(recnum, ib) else ib
    ensures Back(rec, recnum, got) == Some(bs) <==> got == Some(ib)
  {
    if got.Some? && rec && InRecord(recnum, got.value) == bs { InRecordInjective(recnum, got.value, ib); }
  }

  lemma InnerBack(d: Dset, bs: seq<Block>)
    requires Rank(|d.dims|, bs) && bs != []
    ensures var rec := IsRec(d, bs);
            bs == if rec then InRecord(RecNum(bs), InnerBlocks(rec, bs)) else InnerBlocks(rec, bs)
  {
    if IsRec(d, bs) {
      RecordRoundTrip(d, bs);
    } else {
      assert InnerBlocks(false, bs) == bs;
    }
  }

  lemma PartsRoundTrip(cfg: bool, dims: Coord, ib: seq<Block>, f: Flags, num: nat, h: Hdr, now: Dset, buf: seq<byte>, p: nat)
    requires Rank(|dims|, ib) && ib != [] && TailFits(cfg, dims, ib) && Fits64(num)
    requires f.mul == (|ib| > 1) && f.enc == UseSteps(cfg, |dims|, |ib|)
    requires |now.dims| == if f.rec then |dims| + 1 else |dims|
    requires HdrFits(h) && h.metaSize > 0 && h.flag == f
    requires At(buf, p, HdrBytes(h) + (RecField(f.rec, num) + TailBytes(cfg, dims, ib)))
    ensures DecodeEntry(now, buf, p) == Some(Entry(h, WithOffsets(now.esize, 0, if f.rec then InRecord(num, ib) else ib)))
       <==> (f.enc ==> Encodable(dims, ib))
  {
    var q := p + HDRSIZE + |RecField(f.rec, num)|;
    ConcatAssoc(HdrBytes(h), RecField(f.rec, num), TailBytes(cfg, dims, ib));
    AtSplit(buf, p, HdrBytes(h) + RecField(f.rec, num), TailBytes(cfg, dims, ib));
    TailRoundTrip(cfg, dims, ib, buf, q);
    var got := ReadTail(f.mul, f.enc, |dims|, buf, q);
    DecodeSteps(now, buf, p, h, f, num, got);
    var bs := if f.rec then InRecord(num, ib) else ib;
    BackIs(f.rec, num, got, ib, bs);
    SameOffsets(now.esize, Back(f.rec, num, got), bs);
  }

  /** Entry round trip: header, record number and selection are read back with the data offsets of the
      blocks, whatever the dataset's extent has become, exactly when the selection is encodable. */
  lemma EntryRoundTrip(cfg: bool, d: Dset, bs: seq<Block>, h: Hdr, now: Dset, buf: seq<byte>, p: nat)
    requires Rank(|d.dims|, bs) && bs != [] && BodyFits(cfg, d, bs) && SameType(d, now)
    requires HdrFits(h) && h.metaSize > 0 && h.flag == EntryFlags(cfg, d, bs)
    requires At(buf, p, HdrBytes(h) + EntryBody(cfg, d, bs))
    ensures DecodeEntry(now, buf, p) == Some(Entry(h, WithOffsets(d.esize, 0, bs))) <==> Encodes(cfg, d, bs)
  {
    var rec := IsRec(d, bs);
    var num := if rec then RecNum(bs) else 0;
    InnerRank(d, bs);
    InnerBack(d, bs);
    PartsRoundTrip(cfg, InnerDims(rec, d.dims), InnerBlocks(rec, bs), EntryFlags(cfg, d, bs), num, h, now, buf, p);
  }

  lemma SameOffsets(esize: nat, r: Option<seq<Block>>, bs: seq<Block>)
    ensures r.Some? && WithOffsets(esize, 0, r.value) == WithOffsets(esize, 0, bs) <==> r == Some(bs)
  {
    if r.Some? && WithOffsets(esize, 0, r.value) == WithOffsets(esize, 0, bs) { OffsetsInjective(esize, 0, r.value, bs); }
  }

  lemma InRecordInjective(recnum: nat, a: seq<Block>, b: seq<Block>)
    requires InRecord(recnum, a) == InRecord(recnum, b)
    ensures a == b
  {
    assert |InRecord(recnum, a)| == |InRecord(recnum, b)|;
    forall i | 0 <= i < |a| ensures a[i] == b[i]
    {
      assert InRecord(recnum, a)[i] == InRecord(recnum, b)[i];
      assert a[i].start == ([recnum] + a[i].start)[1..] == b[i].start;
      assert a[i].count == ([1] + a[i].count)[1..] == b[i].count;
    }
  }
}
