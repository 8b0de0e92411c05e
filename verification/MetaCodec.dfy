/** The byte format of a metadata entry: header, record number, selection; and its decoder. */
module MetaCodec {
  import opened Grid
  import opened Radix
  import opened Bytes

  datatype Option<+T> = None | Some(value: T)

  /** What the codec needs to know of a dataset. */
  datatype Dset = Dset(dims: Coord, unlimited: bool, esize: nat)

  /** A decoded selection block: its place in the dataset and the offset of its data in the entry's data. */
  datatype Sel = Sel(start: Coord, count: Coord, doff: nat)

  datatype Hdr = Hdr(metaSize: int, did: int, flag: Flags, foff: int, fsize: int)

  datatype Entry = Entry(hdr: Hdr, sels: seq<Sel>)

  datatype Flags = Flags(mul: bool, enc: bool, ref: bool, rec: bool)

  const HDRSIZE: nat := 28
  const WORD: nat := 8

  function FlagInt(f: Flags): (x: int)
    ensures 0 <= x < 64
  {
    (if f.mul then 1 else 0) + (if f.enc then 4 else 0) + (if f.ref then 16 else 0) + (if f.rec then 32 else 0)
  }

  /** The bits the decoder looks at. */
  function FlagsOf(x: int): Flags
  {
    Flags(x % 2 == 1, (x / 4) % 2 == 1, (x / 16) % 2 == 1, (x / 32) % 2 == 1)
  }

  lemma FlagBits(f: Flags)
    ensures FlagsOf(FlagInt(f)) == f
  {
  }

  // ----- the header -----

  predicate HdrFits(h: Hdr)
  {
    Fits32(h.metaSize) && Fits32(h.did) && Fits64(h.foff) && Fits64(h.fsize)
  }

  function HdrBytes(h: Hdr): (r: seq<byte>)
    requires HdrFits(h)
    ensures |r| == HDRSIZE
  {
    I32(h.metaSize) + (I32(h.did) + (I32(FlagInt(h.flag)) + (I64(h.foff) + I64(h.fsize))))
  }

  function GetHdr(buf: seq<byte>, p: nat): Hdr
    requires p + HDRSIZE <= |buf|
  {
    Hdr(Get32(buf, p), Get32(buf, p + 4), FlagsOf(Get32(buf, p + 8)), Get64(buf, p + 12), Get64(buf, p + 20))
  }

  lemma ReadHdr(buf: seq<byte>, p: nat, h: Hdr)
    requires HdrFits(h) && At(buf, p, HdrBytes(h))
    ensures GetHdr(buf, p) == h
  {
    AtSplit(buf, p, I32(h.metaSize), I32(h.did) + (I32(FlagInt(h.flag)) + (I64(h.foff) + I64(h.fsize))));
    AtSplit(buf, p + 4, I32(h.did), I32(FlagInt(h.flag)) + (I64(h.foff) + I64(h.fsize)));
    AtSplit(buf, p + 8, I32(FlagInt(h.flag)), I64(h.foff) + I64(h.fsize));
    AtSplit(buf, p + 12, I64(h.foff), I64(h.fsize));
    Read32(buf, p, h.metaSize);
    Read32(buf, p + 4, h.did);
    Read32(buf, p + 8, FlagInt(h.flag));
    FlagBits(h.flag);
    Read64(buf, p + 12, h.foff);
    Read64(buf, p + 20, h.fsize);
  }

  // ----- selection words -----

  function Flat(cs: seq<Coord>): (r: seq<nat>)
    decreases |cs|
  {
    if cs == [] then [] else cs[0] + Flat(cs[1..])
  }

  function Positions(dsteps: seq<nat>, cs: seq<Coord>): (r: seq<nat>)
    requires forall i :: 0 <= i < |cs| ==> |cs[i]| == |dsteps|
    ensures |r| == |cs|
  {
    seq(|cs|, i requires 0 <= i < |cs| => Weighted(dsteps, cs[i]))
  }

  function StartsOf(bs: seq<Block>): (r: seq<Coord>)
    ensures |r| == |bs|
  {
    seq(|bs|, i requires 0 <= i < |bs| => bs[i].start)
  }

  function CountsOf(bs: seq<Block>): (r: seq<Coord>)
    ensures |r| == |bs|
  {
    seq(|bs|, i requires 0 <= i < |bs| => bs[i].count)
  }

  predicate Rank(n: nat, bs: seq<Block>) { forall i :: 0 <= i < |bs| ==> |bs[i].start| == n && |bs[i].count| == n }

  /** Number of 64-bit words of a selection. */
  function WordCount(enc: bool, encdim: nat, nsel: nat): nat
    requires enc ==> encdim > 0
  {
    if enc then encdim - 1 + 2 * nsel else 2 * (encdim * nsel)
  }

  /** The words of the encoded selection: with SEL_ENCODE the steps, then all starts, then all counts as
      single numbers; otherwise all starts, then all counts as coordinates. */
  function SelWords(enc: bool, dims: Coord, bs: seq<Block>): (ws: seq<nat>)
    requires Rank(|dims|, bs) && (enc ==> |dims| > 0)
  {
    if enc then
      Dsteps(dims)[..|dims| - 1] + (Positions(Dsteps(dims), StartsOf(bs)) + Positions(Dsteps(dims), CountsOf(bs)))
    else
      Flat(StartsOf(bs)) + Flat(CountsOf(bs))
  }

  function TakeCoords(ws: seq<nat>, n: nat, d: nat): (r: seq<Coord>)
    requires n * d <= |ws|
    ensures |r| == n
    decreases n
  {
    if n == 0 then [] else
      MulGap(0, n, d + 1, 0, 0);
      assert d <= n * d && (n - 1) * d == n * d - d;
      [ws[..d]] + TakeCoords(ws[d..], n - 1, d)
  }

  function Pair(ss: seq<Coord>, cs: seq<Coord>): (bs: seq<Block>)
    requires |ss| == |cs|
    ensures |bs| == |ss|
  {
    seq(|ss|, i requires 0 <= i < |ss| => Block(ss[i], cs[i]))
  }

  predicate NoneNegative(ws: seq<int>) { forall i :: 0 <= i < |ws| ==> ws[i] >= 0 }

  function DecodeAll(dsteps: seq<nat>, ws: seq<nat>): (cs: seq<Coord>)
    requires Positive(dsteps)
    ensures |cs| == |ws|
  {
    seq(|ws|, i requires 0 <= i < |ws| => Decode(dsteps, ws[i]))
  }

  /** Blocks read back from the words of a selection; None where the words are not those of an encoder. */
  function DecodeWords(enc: bool, encdim: nat, nsel: nat, ws: seq<int>): (r: Option<seq<Block>>)
    requires (enc ==> encdim > 0) && |ws| == WordCount(enc, encdim, nsel)
    ensures r.Some? ==> |r.value| == nsel
  {
    if !NoneNegative(ws) then None
    else if enc then
      var dsteps: seq<nat> := Naturals(ws)[..encdim - 1] + [1];
      if !Positive(dsteps) then None else
        var ps := Naturals(ws)[encdim - 1..];
        Some(Pair(DecodeAll(dsteps, ps[..nsel]), DecodeAll(dsteps, ps[nsel..])))
    else
      CommuteMul(nsel, encdim);
      var ns := Naturals(ws);
      Some(Pair(TakeCoords(ns[..encdim * nsel], nsel, encdim), TakeCoords(ns[encdim * nsel..], nsel, encdim)))
  }

  function Naturals(ws: seq<int>): (ns: seq<nat>)
    requires NoneNegative(ws)
    ensures ns == ws
  {
    ws
  }

  lemma CommuteMul(a: nat, b: nat)
    ensures a * b == b * a
  {
  }

  // ----- words round trip -----

  lemma {:induction false} FlatLen(cs: seq<Coord>, d: nat)
    requires forall i :: 0 <= i < |cs| ==> |cs[i]| == d
    ensures |Flat(cs)| == |cs| * d
    decreases |cs|
  {
    if cs != [] {
      FlatLen(cs[1..], d);
      assert |cs| * d == d + (|cs| - 1) * d;
    }
  }

  lemma {:induction false} TakeFlat(cs: seq<Coord>, d: nat)
    requires forall i :: 0 <= i < |cs| ==> |cs[i]| == d
    ensures |Flat(cs)| == |cs| * d && TakeCoords(Flat(cs), |cs|, d) == cs
    decreases |cs|
  {
    FlatLen(cs, d);
    if cs != [] {
      FlatLen(cs[1..], d);
      TakeFlat(cs[1..], d);
      assert Flat(cs)[..d] == cs[0] && Flat(cs)[d..] == Flat(cs[1..]);
      assert cs == [cs[0]] + cs[1..];
    }
  }

  lemma SelWordsLen(enc: bool, dims: Coord, bs: seq<Block>)
    requires Rank(|dims|, bs) && (enc ==> |dims| > 0)
    ensures |SelWords(enc, dims, bs)| == WordCount(enc, |dims|, |bs|)
  {
    if !enc {
      FlatLen(StartsOf(bs), |dims|);
      FlatLen(CountsOf(bs), |dims|);
      CommuteMul(|bs|, |dims|);
    }
  }

  /** Every coordinate of the selection has its trailing digits below the dataset's extent. */
  predicate Encodable(dims: Coord, bs: seq<Block>)
  {
    forall i :: 0 <= i < |bs| ==> InRadix(dims, bs[i].start) && InRadix(dims, bs[i].count)
  }

  lemma LastStep(dims: Coord)
    requires |dims| > 0 && Positive(dims[1..])
    ensures Positive(Dsteps(dims)) && Dsteps(dims) == Dsteps(dims)[..|dims| - 1] + [1]
  {
    DstepsPositive(dims);
    LastIsOne(dims);
    SplitLast(Dsteps(dims));
  }

  lemma LastIsOne(dims: Coord)
    requires |dims| > 0
    ensures Dsteps(dims)[|dims| - 1] == 1
  {
    DstepsAt(dims, |dims| - 1);
    assert dims[|dims| - 1 + 1..] == [];
  }

  lemma SplitLast(s: seq<nat>)
    requires |s| > 0
    ensures s == s[..|s| - 1] + [s[|s| - 1]]
  {
  }

  /** Words round trip: exact for every selection without SEL_ENCODE, and with it exactly for the
      encodable ones. */
  lemma WordsRoundTrip(enc: bool, dims: Coord, bs: seq<Block>)
    requires Rank(|dims|, bs) && (enc ==> |dims| > 0 && Positive(dims[1..]))
    ensures |SelWords(enc, dims, bs)| == WordCount(enc, |dims|, |bs|)
    ensures DecodeWords(enc, |dims|, |bs|, SelWords(enc, dims, bs)) == Some(bs) <==> (enc ==> Encodable(dims, bs))
  {
    SelWordsLen(enc, dims, bs);
    if enc {
      EncodedRoundTrip(dims, bs);
    } else {
      PlainRoundTrip(dims, bs);
    }
  }

  lemma PlainRoundTrip(dims: Coord, bs: seq<Block>)
    requires Rank(|dims|, bs)
    ensures |SelWords(false, dims, bs)| == WordCount(false, |dims|, |bs|)
    ensures DecodeWords(false, |dims|, |bs|, SelWords(false, dims, bs)) == Some(bs)
  {
    var ss, cs := StartsOf(bs), CountsOf(bs);
    TakeFlat(ss, |dims|);
    TakeFlat(cs, |dims|);
    CommuteMul(|bs|, |dims|);
    var ws := SelWords(false, dims, bs);
    assert ws[..|dims| * |bs|] == Flat(ss) && ws[|dims| * |bs|..] == Flat(cs);
    assert Pair(ss, cs) == bs;
  }

  lemma EncodedRoundTrip(dims: Coord, bs: seq<Block>)
    requires Rank(|dims|, bs) && |dims| > 0 && Positive(dims[1..])
    ensures |SelWords(true, dims, bs)| == WordCount(true, |dims|, |bs|)
    ensures DecodeWords(true, |dims|, |bs|, SelWords(true, dims, bs)) == Some(bs) <==> Encodable(dims, bs)
  {
    var ss, cs := StartsOf(bs), CountsOf(bs);
    var ds := Dsteps(dims);
    LastStep(dims);
    var ws := SelWords(true, dims, bs);
    var ps := ws[|dims| - 1..];
    assert ws[..|dims| - 1] == ds[..|dims| - 1];
    assert ps[..|bs|] == Positions(ds, ss) && ps[|bs|..] == Positions(ds, cs);
    var back := Pair(DecodeAll(ds, ps[..|bs|]), DecodeAll(ds, ps[|bs|..]));
    assert DecodeWords(true, |dims|, |bs|, ws) == Some(back);
    forall i | 0 <= i < |bs|
      ensures back[i] == bs[i] <==> InRadix(dims, bs[i].start) && InRadix(dims, bs[i].count)
    {
      RadixRoundTrip(dims, ss[i]);
      RadixRoundTrip(dims, cs[i]);
    }
    if Encodable(dims, bs) { assert back == bs; }
  }
}
