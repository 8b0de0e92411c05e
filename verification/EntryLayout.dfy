/** The bytes of an entry, field by field. */
module EntryLayout {
  import opened Grid
  import opened Radix
  import opened Bytes
  import opened MetaCodec
  import opened EntryCodec
  import opened Dedup
  import opened Stream

  /** The 64-bit word at a position, or -1 behind the end. */
  function Word(buf: seq<byte>, p: nat): int { if p + 8 <= |buf| then Get64(buf, p) else -1 }

  /** The 32-bit word at a position, or -1 behind the end. */
  function Half(buf: seq<byte>, p: nat): int { if p + 4 <= |buf| then Get32(buf, p) else -1 }

  /** Header: size, dataset, flags, data offset, data size. */
  ghost predicate HeaderLaid(buf: seq<byte>, size: int, did: int, mul: bool, enc: bool, ref: bool, rec: bool, foff: int, fsize: int)
  {
    Half(buf, 0) == size && Half(buf, 4) == did &&
    Half(buf, 8) == (if mul then 0x01 else 0) + (if enc then 0x04 else 0) + (if ref then 0x10 else 0) + (if rec then 0x20 else 0) &&
    Word(buf, 12) == foff && Word(buf, 20) == fsize
  }

  /** Number of coordinate k of block i among coordinates of d dimensions. */
  function Nth(i: nat, d: nat, k: nat): nat { i * d + k }

  /** Blocks as coordinates from dimension lo on: all starts, then all counts. */
  ghost predicate CoordsLaid(buf: seq<byte>, q: nat, n: nat, lo: nat, bs: seq<Block>)
    requires Rank(n, bs) && lo <= n
  {
    var d, m := n - lo, |bs|;
    forall i, k :: 0 <= i < m && lo <= k < n ==>
      Word(buf, q + 8 * Nth(i, d, k - lo)) == bs[i].start[k] && Word(buf, q + 8 * Nth(m, d, Nth(i, d, k - lo))) == bs[i].count[k]
  }

  /** Blocks as positions from dimension lo on: the steps but for the last, all starts, then all counts. */
  ghost predicate PositionsLaid(buf: seq<byte>, q: nat, dims: Coord, lo: nat, bs: seq<Block>)
    requires Rank(|dims|, bs) && lo < |dims|
  {
    var d, m := |dims| - lo, |bs|;
    (forall k :: 0 <= k < d - 1 ==> Word(buf, q + 8 * k) == Prod(dims[lo..][k + 1..])) &&
    (forall i :: 0 <= i < m ==> Word(buf, q + 8 * (d - 1 + i)) == Linear(dims[lo..], bs[i].start[lo..])) &&
    forall i :: 0 <= i < m ==> Word(buf, q + 8 * (d - 1 + m + i)) == Linear(dims[lo..], bs[i].count[lo..])
  }

  /** The entry of a write that is kept in full; rec and enc say whether it is a record entry and step-encoded. */
  ghost predicate Laid(w: Write, rec: bool, enc: bool, buf: seq<byte>)
    requires Rank(|w.dset.dims|, w.blocks) && w.blocks != [] && (rec ==> w.dset.dims != [])
  {
    var n, m, lo := |w.dset.dims|, |w.blocks|, if rec then 1 else 0;
    var p := if rec then 36 else 28;
    var q := if m > 1 then p + 4 else p;
    (enc ==> lo < n) && |buf| == q + 8 * (if enc then n - lo - 1 + 2 * m else 2 * ((n - lo) * m)) &&
    HeaderLaid(buf, |buf|, w.did, m > 1, enc, false, rec, 0, |w.data|) &&
    (rec ==> Word(buf, 28) == w.blocks[0].start[0]) && (m > 1 ==> Half(buf, p) == m) &&
    if enc then PositionsLaid(buf, q, w.dset.dims, lo, w.blocks) else CoordsLaid(buf, q, n, lo, w.blocks)
  }

  // ----- the encoder's bytes are laid out so -----

  lemma HeaderWords(buf: seq<byte>, h: Hdr)
    requires HdrFits(h) && At(buf, 0, HdrBytes(h))
    ensures HeaderLaid(buf, h.metaSize, h.did, h.flag.mul, h.flag.enc, h.flag.ref, h.flag.rec, h.foff, h.fsize)
  {
    hide I32, I64, Get32, Get64, At;
    var t := I64(h.foff) + I64(h.fsize);
    AtSplit(buf, 0, I32(h.metaSize), I32(h.did) + (I32(FlagInt(h.flag)) + t));
    AtSplit(buf, 4, I32(h.did), I32(FlagInt(h.flag)) + t);
    AtSplit(buf, 8, I32(FlagInt(h.flag)), t);
    AtSplit(buf, 12, I64(h.foff), I64(h.fsize));
    ReadHalf(buf, 0, h.metaSize);
    ReadHalf(buf, 4, h.did);
    ReadHalf(buf, 8, FlagInt(h.flag));
    ReadWord(buf, 12, h.foff);
    ReadWord(buf, 20, h.fsize);
  }

  lemma ReadHalf(buf: seq<byte>, p: nat, x: int)
    requires Fits32(x) && At(buf, p, I32(x))
    ensures Half(buf, p) == x
  {
    Read32(buf, p, x);
  }

  lemma ReadWord(buf: seq<byte>, p: nat, x: int)
    requires Fits64(x) && At(buf, p, I64(x))
    ensures Word(buf, p) == x
  {
    Read64(buf, p, x);
  }

  lemma ReadEach(buf: seq<byte>, q: nat, ws: seq<nat>)
    requires AllFit(ws) && At(buf, q, Words(ws))
    ensures forall j :: 0 <= j < |ws| ==> Word(buf, q + 8 * j) == ws[j]
  {
    hide Get64, Words;
    ReadWords(buf, q, ws);
    EachWord(buf, q, ws);
  }

  lemma EachWord(buf: seq<byte>, q: nat, ws: seq<nat>)
    requires q + 8 * |ws| <= |buf| && GetWords(buf, q, |ws|) == ws
    ensures forall j :: 0 <= j < |ws| ==> Word(buf, q + 8 * j) == ws[j]
  {
    hide Get64;
    forall j | 0 <= j < |ws| ensures Word(buf, q + 8 * j) == ws[j] { assert GetWords(buf, q, |ws|)[j] == Get64(buf, q + 8 * j); }
  }

  lemma {:induction false} FlatAt(cs: seq<Coord>, d: nat, i: nat, k: nat)
    requires (forall t :: 0 <= t < |cs| ==> |cs[t]| == d) && i < |cs| && k < d
    ensures 0 <= i * d + k < |Flat(cs)| && Flat(cs)[i * d + k] == cs[i][k]
    decreases i
  {
    if i > 0 {
      FlatAt(cs[1..], d, i - 1, k);
      Distribute(i - 1, 1, d);
    }
  }

  /** The words of blocks that are stored as coordinates. */
  lemma CoordWords(dims: Coord, bs: seq<Block>, i: nat, k: nat)
    requires Rank(|dims|, bs) && i < |bs| && k < |dims|
    ensures var d, m, ws := |dims|, |bs|, SelWords(false, dims, bs);
            Nth(i, d, k) < |ws| && ws[Nth(i, d, k)] == bs[i].start[k] &&
            Nth(m, d, Nth(i, d, k)) < |ws| && ws[Nth(m, d, Nth(i, d, k))] == bs[i].count[k]
  {
    hide Flat;
    FlatAt(StartsOf(bs), |dims|, i, k);
    FlatAt(CountsOf(bs), |dims|, i, k);
    FlatLen(StartsOf(bs), |dims|);
  }

  /** The words of step-encoded blocks: step k. */
  lemma StepWordAt(dims: Coord, bs: seq<Block>, k: nat)
    requires Rank(|dims|, bs) && k + 1 < |dims|
    ensures k < |SelWords(true, dims, bs)| && SelWords(true, dims, bs)[k] == Prod(dims[k + 1..])
  {
    hide Prod, Weighted, Flat, Positions;
    DstepsAt(dims, k);
    FirstPart(Dsteps(dims)[..|dims| - 1], Positions(Dsteps(dims), StartsOf(bs)) + Positions(Dsteps(dims), CountsOf(bs)), k);
  }

  lemma FirstPart(x: seq<nat>, y: seq<nat>, k: nat)
    requires k < |x|
    ensures (x + y)[k] == x[k]
  {
  }

  /** Start and count of block i. */
  lemma PositionWordAt(dims: Coord, bs: seq<Block>, i: nat)
    requires Rank(|dims|, bs) && dims != [] && i < |bs|
    ensures var d, m, ws := |dims|, |bs|, SelWords(true, dims, bs);
            |ws| == d - 1 + 2 * m && ws[d - 1 + i] == Linear(dims, bs[i].start) && ws[d - 1 + m + i] == Linear(dims, bs[i].count)
  {
    hide Linear, Weighted, Dsteps, Flat, Positions;
    var ds := Dsteps(dims);
    OnePosition(dims, bs, i);
    OtherParts(ds[..|dims| - 1], Positions(ds, StartsOf(bs)), Positions(ds, CountsOf(bs)), i);
  }

  lemma OtherParts(x: seq<nat>, y: seq<nat>, z: seq<nat>, i: nat)
    requires i < |y| == |z|
    ensures |x + (y + z)| == |x| + 2 * |y| && (x + (y + z))[|x| + i] == y[i] && (x + (y + z))[|x| + |y| + i] == z[i]
  {
  }

  lemma OnePosition(dims: Coord, bs: seq<Block>, i: nat)
    requires Rank(|dims|, bs) && i < |bs|
    ensures Positions(Dsteps(dims), StartsOf(bs))[i] == Linear(dims, bs[i].start)
    ensures Positions(Dsteps(dims), CountsOf(bs))[i] == Linear(dims, bs[i].count)
  {
    hide Linear, Weighted, Dsteps;
    EncodeIsLinear(dims, bs[i].start);
    EncodeIsLinear(dims, bs[i].count);
  }

  /** The words from position q on. */
  ghost predicate Read(buf: seq<byte>, q: nat, ws: seq<nat>) { forall j :: 0 <= j < |ws| ==> Word(buf, q + 8 * j) == ws[j] }

  lemma OneCoord(n: nat, lo: nat, bs: seq<Block>, dims: Coord, ib: seq<Block>, buf: seq<byte>, q: nat, i: nat, k: nat)
    requires Rank(n, bs) && lo <= k < n && i < |bs| == |ib| && |dims| == n - lo && Rank(|dims|, ib)
    requires ib[i].start == bs[i].start[lo..] && ib[i].count == bs[i].count[lo..] && Read(buf, q, SelWords(false, dims, ib))
    ensures Word(buf, q + 8 * Nth(i, |dims|, k - lo)) == bs[i].start[k]
    ensures Word(buf, q + 8 * Nth(|bs|, |dims|, Nth(i, |dims|, k - lo))) == bs[i].count[k]
  {
    hide SelWords, Word;
    CoordWords(dims, ib, i, k - lo);
  }

  lemma CoordsRead(n: nat, lo: nat, bs: seq<Block>, dims: Coord, ib: seq<Block>, buf: seq<byte>, q: nat)
    requires Rank(n, bs) && lo <= n && |bs| == |ib| && |dims| == n - lo && Rank(|dims|, ib) && Read(buf, q, SelWords(false, dims, ib))
    requires forall i :: 0 <= i < |bs| ==> ib[i].start == bs[i].start[lo..] && ib[i].count == bs[i].count[lo..]
    ensures CoordsLaid(buf, q, n, lo, bs)
  {
    hide SelWords, Word, Read, Nth;
    var d, m := n - lo, |bs|;
    forall i, k | 0 <= i < m && lo <= k < n
      ensures Word(buf, q + 8 * Nth(i, d, k - lo)) == bs[i].start[k] && Word(buf, q + 8 * Nth(m, d, Nth(i, d, k - lo))) == bs[i].count[k]
    {
      OneCoord(n, lo, bs, dims, ib, buf, q, i, k);
    }
  }

  lemma PositionsRead(full: Coord, lo: nat, bs: seq<Block>, dims: Coord, ib: seq<Block>, buf: seq<byte>, q: nat)
    requires Rank(|full|, bs) && lo < |full| && |bs| == |ib| && dims == full[lo..] && Rank(|dims|, ib) && Read(buf, q, SelWords(true, dims, ib))
    requires forall i :: 0 <= i < |bs| ==> ib[i].start == bs[i].start[lo..] && ib[i].count == bs[i].count[lo..]
    ensures PositionsLaid(buf, q, full, lo, bs)
  {
    hide SelWords, Word, Linear, Prod, Read;
    var d, m := |dims|, |bs|;
    forall i | 0 <= i < m
      ensures Word(buf, q + 8 * (d - 1 + i)) == Linear(dims, bs[i].start[lo..]) && Word(buf, q + 8 * (d - 1 + m + i)) == Linear(dims, bs[i].count[lo..])
    {
      PositionWordAt(dims, ib, i);
      ReadAt(buf, q, SelWords(true, dims, ib), d - 1 + i);
      ReadAt(buf, q, SelWords(true, dims, ib), d - 1 + m + i);
    }
    forall k | 0 <= k < d - 1 ensures Word(buf, q + 8 * k) == Prod(dims[k + 1..])
    {
      StepWordAt(dims, ib, k);
      ReadAt(buf, q, SelWords(true, dims, ib), k);
    }
  }

  lemma ReadAt(buf: seq<byte>, q: nat, ws: seq<nat>, j: nat)
    requires Read(buf, q, ws) && j < |ws|
    ensures Word(buf, q + 8 * j) == ws[j]
  {
    hide Word;
  }

  /** The selection behind the record number. */
  lemma TailLaid(w: Write, rec: bool, enc: bool, dims: Coord, ib: seq<Block>, buf: seq<byte>, q: nat)
    requires Rank(|w.dset.dims|, w.blocks) && (rec ==> w.dset.dims != []) && dims == InnerDims(rec, w.dset.dims) && ib == InnerBlocks(rec, w.blocks)
    requires Rank(|dims|, ib) && (enc ==> dims != []) && AllFit(SelWords(enc, dims, ib)) && At(buf, q, Words(SelWords(enc, dims, ib)))
    ensures var lo := if rec then 1 else 0;
            (enc ==> lo < |w.dset.dims|) && lo <= |w.dset.dims| &&
            if enc then PositionsLaid(buf, q, w.dset.dims, lo, w.blocks) else CoordsLaid(buf, q, |w.dset.dims|, lo, w.blocks)
  {
    hide SelWords, Words, Word, At, PositionsLaid, CoordsLaid;
    var lo, bs := if rec then 1 else 0, w.blocks;
    ReadEach(buf, q, SelWords(enc, dims, ib));
    assert Read(buf, q, SelWords(enc, dims, ib));
    forall i | 0 <= i < |bs| ensures ib[i].start == bs[i].start[lo..] && ib[i].count == bs[i].count[lo..] {}
    assert dims == w.dset.dims[lo..];
    if enc { PositionsRead(w.dset.dims, lo, bs, dims, ib, buf, q); } else { CoordsRead(|w.dset.dims|, lo, bs, dims, ib, buf, q); }
  }

  /** A request that is kept in full has its bytes laid out that way. */
  lemma RequestLaid(cfg: bool, w: Write, r: Req)
    requires WriteOk(cfg, w) && r == NewReq(cfg, w, r.metaOff, 0) && ReqFits(r)
    ensures Rank(|w.dset.dims|, w.blocks) && w.blocks != [] && (r.hdr.flag.rec ==> w.dset.dims != [])
    ensures Laid(w, r.hdr.flag.rec, r.hdr.flag.enc, ReqBytes(r))
  {
    hide SelWords, Words, Word, Half, HeaderLaid, CoordsLaid, PositionsLaid, At, HdrBytes, I64, I32, Encodes;
    var buf, h := ReqBytes(r), r.hdr;
    var rec, enc, m := h.flag.rec, h.flag.enc, |w.blocks|;
    var num := if rec then RecNum(w.blocks) else 0;
    var dims, ib := InnerDims(rec, w.dset.dims), InnerBlocks(rec, w.blocks);
    InnerRank(w.dset, w.blocks);
    Whole(buf);
    AtSplit(buf, 0, HdrBytes(h), RecField(rec, num) + r.sel);
    HeaderWords(buf, h);
    AtSplit(buf, 28, RecField(rec, num), r.sel);
    if rec { ReadWord(buf, 28, num); }
    var p := if rec then 36 else 28;
    AtSplit(buf, p, CountField(m), Words(SelWords(enc, dims, ib)));
    if m > 1 { ReadHalf(buf, p, m); }
    TailLaid(w, rec, enc, dims, ib, buf, if m > 1 then p + 4 else p);
    SelWordsLen(enc, dims, ib);
  }

  lemma Whole(buf: seq<byte>)
    ensures At(buf, 0, buf)
  {
  }

  /** When a write is a record write, which number it has, and when its selection is step-encoded. */
  ghost predicate FlaggedFor(cfg: bool, w: Write, r: Req)
    requires Rank(|w.dset.dims|, w.blocks) && w.blocks != []
  {
    var n, bs, f := |w.dset.dims|, w.blocks, r.hdr.flag;
    (f.rec <==> n > 0 && w.dset.unlimited && forall i :: 0 <= i < |bs| ==> bs[i].count[0] == 1 && bs[i].start[0] == bs[0].start[0]) &&
    r.record == (if f.rec then Some(bs[0].start[0]) else None) &&
    (f.mul <==> |bs| > 1) && (f.enc <==> cfg && |bs| > 1 && n > if f.rec then 2 else 1) && !f.ref
  }

  lemma RequestFlagged(cfg: bool, w: Write, r: Req)
    requires WriteOk(cfg, w) && r == NewReq(cfg, w, r.metaOff, r.hdr.foff)
    ensures Rank(|w.dset.dims|, w.blocks) && w.blocks != [] && FlaggedFor(cfg, w, r)
  {
    hide EntryTail, Encodes, BodyFits;
  }

  // ----- references -----

  /** A reference: header, record number if it keeps one, and how far before it the entry starts that it refers to. */
  ghost predicate ReferenceLaid(r: Req, t: Req, buf: seq<byte>)
  {
    var rec := r.record.Some? && r.record != t.record;
    |buf| == (if rec then 44 else 36) &&
    HeaderLaid(buf, |buf|, r.hdr.did, r.hdr.flag.mul, r.hdr.flag.enc, true, rec, r.hdr.foff, r.hdr.fsize) &&
    (rec ==> Word(buf, 28) == r.record.value) && Word(buf, if rec then 36 else 28) == t.metaOff - r.metaOff
  }

  /** What replaces a request that compares equal to t. */
  lemma ReferLaid(r: Req, t: Req)
    requires ReqFits(r) && Fits64(t.metaOff - r.metaOff)
    ensures ReqFits(Refer(r, t)) && ReferenceLaid(r, t, ReqBytes(Refer(r, t)))
  {
    hide Word, Half, HeaderLaid, At, HdrBytes, I64;
    var s := Refer(r, t);
    var buf, rec := ReqBytes(s), s.record.Some?;
    var num := if rec then s.record.value else 0;
    Whole(buf);
    AtSplit(buf, 0, HdrBytes(s.hdr), RecField(rec, num) + s.sel);
    HeaderWords(buf, s.hdr);
    AtSplit(buf, 28, RecField(rec, num), s.sel);
    if rec { ReadWord(buf, 28, num); }
    ReadWord(buf, if rec then 36 else 28, t.metaOff - r.metaOff);
  }
}
