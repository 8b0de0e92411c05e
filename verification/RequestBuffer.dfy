/** The write-request constructor and the entry decoder as they run: loops over a byte buffer with a moving
    pointer. */
module RequestBuffer {
  import opened Grid
  import opened Radix
  import opened Bytes
  import opened MetaCodec
  import opened EntryCodec
  import opened Dedup
  import opened Stream
  import opened EntryLayout

  /** Stores bytes at the pointer and advances it. */
  method Emit(buf: array<byte>, p: nat, bs: seq<byte>) returns (q: nat)
    requires p + |bs| <= buf.Length
    modifies buf
    ensures q == p + |bs| && buf[..q] == old(buf[..p]) + bs
  {
    var i := 0;
    while i < |bs|
      invariant 0 <= i <= |bs| && buf[..p] == old(buf[..p])
      invariant buf[p..p + i] == bs[..i]
    {
      buf[p + i] := bs[i];
      i := i + 1;
    }
    q := p + |bs|;
    assert buf[..q] == buf[..p] + buf[p..p + |bs|];
  }

  lemma WordsSnoc(ws: seq<int>, i: nat)
    requires AllFit(ws) && i < |ws|
    ensures AllFit(ws[..i]) && AllFit(ws[..i + 1]) && Words(ws[..i + 1]) == Words(ws[..i]) + I64(ws[i])
  {
    assert ws[..i + 1] == ws[..i] + [ws[i]];
    WordsConcat(ws[..i], [ws[i]]);
    assert Words([ws[i]]) == I64(ws[i]) + Words([]) by { assert [ws[i]][1..] == []; }
    assert Words([]) == [];
    assert I64(ws[i]) + [] == I64(ws[i]);
  }

  /** Copies 64-bit words into the buffer. */
  method EmitWords(buf: array<byte>, p: nat, ws: seq<int>) returns (q: nat)
    requires AllFit(ws) && p + 8 * |ws| <= buf.Length
    modifies buf
    ensures q == p + 8 * |ws| && buf[..q] == old(buf[..p]) + Words(ws)
  {
    q := p;
    var i := 0;
    assert ws[..0] == [] && old(buf[..p]) + [] == old(buf[..p]);
    while i < |ws|
      invariant 0 <= i <= |ws| && q == p + 8 * i && AllFit(ws[..i])
      invariant buf[..q] == old(buf[..p]) + Words(ws[..i])
    {
      WordsSnoc(ws, i);
      ConcatAssoc(old(buf[..p]), Words(ws[..i]), I64(ws[i]));
      q := Emit(buf, q, I64(ws[i]));
      i := i + 1;
    }
    assert ws[..i] == ws;
  }

  /** The record test of the constructor. */
  method TestRecord(d: Dset, bs: seq<Block>) returns (rec: bool)
    requires Rank(|d.dims|, bs)
    ensures rec == IsRec(d, bs)
  {
    rec := false;
    if |d.dims| > 0 && d.unlimited && |bs| > 0 {
      var recnum := bs[0].start[0];
      var i := 0;
      while i < |bs|
        invariant 0 <= i <= |bs|
        invariant forall k :: 0 <= k < i ==> bs[k].count[0] == 1 && bs[k].start[0] == recnum
      {
        if bs[i].count[0] != 1 || bs[i].start[0] != recnum { break; }
        i := i + 1;
      }
      rec := i == |bs|;
    }
  }

  /** One coordinate list of the selection, step-encoded. */
  method EmitPositions(buf: array<byte>, p: nat, dsteps: seq<nat>, cs: seq<Coord>) returns (q: nat)
    requires forall i :: 0 <= i < |cs| ==> |cs[i]| == |dsteps|
    requires AllFit(Positions(dsteps, cs)) && p + 8 * |cs| <= buf.Length
    modifies buf
    ensures q == p + 8 * |cs| && buf[..q] == old(buf[..p]) + Words(Positions(dsteps, cs))
  {
    q := p;
    var i := 0;
    ghost var ws := Positions(dsteps, cs);
    assert ws[..0] == [] && old(buf[..p]) + [] == old(buf[..p]);
    while i < |cs|
      invariant 0 <= i <= |cs| && q == p + 8 * i && AllFit(ws[..i])
      invariant buf[..q] == old(buf[..p]) + Words(ws[..i])
    {
      WordsSnoc(ws, i);
      ConcatAssoc(old(buf[..p]), Words(ws[..i]), I64(ws[i]));
      var off := SelEncode(dsteps, cs[i]);
      q := Emit(buf, q, I64(off));
      i := i + 1;
    }
    assert ws[..i] == ws;
  }

  lemma {:induction false} FlatSnoc(cs: seq<Coord>, i: nat)
    requires i < |cs|
    ensures Flat(cs[..i + 1]) == Flat(cs[..i]) + cs[i]
    decreases i
  {
    if i == 0 {
      assert cs[..1][1..] == [] && cs[..0] == [];
    } else {
      FlatSnoc(cs[1..], i - 1);
      assert cs[..i + 1][1..] == cs[1..][..i] && cs[..i][1..] == cs[1..][..i - 1];
    }
  }

  lemma {:induction false} FlatFits(cs: seq<Coord>, i: nat)
    requires AllFit(Flat(cs)) && i < |cs|
    ensures AllFit(cs[i])
    decreases i
  {
    if i == 0 {
      forall k | 0 <= k < |cs[0]| ensures Fits64(cs[0][k]) { assert Flat(cs)[k] == cs[0][k]; }
    } else {
      forall k | 0 <= k < |Flat(cs[1..])| ensures Fits64(Flat(cs[1..])[k]) { assert Flat(cs)[|cs[0]| + k] == Flat(cs[1..])[k]; }
      FlatFits(cs[1..], i - 1);
    }
  }

  lemma FlatWords(cs: seq<Coord>, i: nat)
    requires AllFit(Flat(cs)) && i < |cs| && AllFit(Flat(cs[..i]))
    ensures AllFit(cs[i]) && AllFit(Flat(cs[..i + 1])) && Words(Flat(cs[..i + 1])) == Words(Flat(cs[..i])) + Words(cs[i])
  {
    FlatFits(cs, i);
    FlatSnoc(cs, i);
    WordsConcat(Flat(cs[..i]), cs[i]);
  }

  lemma NothingFlat(cs: seq<Coord>, was: seq<byte>)
    ensures Flat(cs[..0]) == [] && AllFit([]) && was + Words([]) == was
  {
    assert cs[..0] == [];
  }

  lemma FlatRoom(cs: seq<Coord>, i: nat, d: nat)
    requires (forall k :: 0 <= k < |cs| ==> |cs[k]| == d) && i < |cs|
    ensures |Flat(cs[..i + 1])| == |Flat(cs[..i])| + |cs[i]| <= |Flat(cs)|
  {
    hide Flat;
    FlatSnoc(cs, i);
    FlatLen(cs, d);
    FlatLen(cs[..i + 1], d);
    MulMono(i + 1, |cs|, d);
  }

  /** One coordinate list of the selection, as coordinates. */
  method EmitCoords(buf: array<byte>, p: nat, d: nat, cs: seq<Coord>) returns (q: nat)
    requires forall i :: 0 <= i < |cs| ==> |cs[i]| == d
    requires AllFit(Flat(cs)) && p + 8 * |Flat(cs)| <= buf.Length
    modifies buf
    ensures q == p + 8 * |Flat(cs)| && buf[..q] == old(buf[..p]) + Words(Flat(cs))
  {
    hide Flat, Words, AllFit;
    ghost var was := buf[..p];
    q := p;
    var i := 0;
    NothingFlat(cs, was);
    while i < |cs|
      invariant 0 <= i <= |cs| && AllFit(Flat(cs[..i])) && q == p + 8 * |Flat(cs[..i])| <= buf.Length
      invariant buf[..q] == was + Words(Flat(cs[..i]))
    {
      FlatRoom(cs, i, d);
      FlatWords(cs, i);
      ConcatAssoc(was, Words(Flat(cs[..i])), Words(cs[i]));
      q := EmitWords(buf, q, cs[i]);
      i := i + 1;
    }
    assert cs[..i] == cs;
  }

  /** The selection after the record number: block count if there are several, steps if they are used, all
      starts, all counts. */
  method EmitSelection(cfg: bool, dims: Coord, dsteps: seq<nat>, bs: seq<Block>, buf: array<byte>, p: nat) returns (q: nat)
    requires Rank(|dims|, bs) && bs != [] && TailFits(cfg, dims, bs) && (cfg ==> dsteps == Dsteps(dims))
    requires p + |TailBytes(cfg, dims, bs)| == buf.Length
    modifies buf
    ensures q == buf.Length && buf[..q] == old(buf[..p]) + TailBytes(cfg, dims, bs)
  {
    ghost var was := buf[..p];
    var enc := UseSteps(cfg, |dims|, |bs|);
    var ss, cs := StartsOf(bs), CountsOf(bs);
    q := p;
    assert was + [] == was;
    if |bs| > 1 { q := Emit(buf, q, I32(|bs|)); }
    ghost var head := was + CountField(|bs|);
    Parts(cfg, dims, bs);
    SelWordsLen(enc, dims, bs);
    if enc {
      q := EmitWords(buf, q, dsteps[..|dims| - 1]);
      q := EmitPositions(buf, q, dsteps, ss);
      q := EmitPositions(buf, q, dsteps, cs);
      Chain3(head, Words(dsteps[..|dims| - 1]), Words(Positions(dsteps, ss)), Words(Positions(dsteps, cs)));
    } else {
      q := EmitCoords(buf, q, |dims|, ss);
      q := EmitCoords(buf, q, |dims|, cs);
      ConcatAssoc(head, Words(Flat(ss)), Words(Flat(cs)));
    }
    ConcatAssoc(was, CountField(|bs|), Words(Words0(cfg, dims, bs)));
  }

  lemma Chain3(h: seq<byte>, a: seq<byte>, b: seq<byte>, c: seq<byte>)
    ensures h + a + b + c == h + (a + (b + c))
  {
  }

  lemma FitsParts(a: seq<int>, b: seq<int>)
    requires AllFit(a + b)
    ensures AllFit(a) && AllFit(b) && Words(a + b) == Words(a) + Words(b)
  {
    assert forall i :: 0 <= i < |a| ==> a[i] == (a + b)[i];
    assert forall i :: 0 <= i < |b| ==> b[i] == (a + b)[|a| + i];
    WordsConcat(a, b);
  }

  lemma Parts(cfg: bool, dims: Coord, bs: seq<Block>)
    requires Rank(|dims|, bs) && TailFits(cfg, dims, bs)
    ensures var ss, cs, ds := StartsOf(bs), CountsOf(bs), Dsteps(dims);
            if UseSteps(cfg, |dims|, |bs|) then
              AllFit(ds[..|dims| - 1]) && AllFit(Positions(ds, ss)) && AllFit(Positions(ds, cs)) &&
              Words(Words0(cfg, dims, bs)) == Words(ds[..|dims| - 1]) + (Words(Positions(ds, ss)) + Words(Positions(ds, cs)))
            else
              AllFit(Flat(ss)) && AllFit(Flat(cs)) && Words(Words0(cfg, dims, bs)) == Words(Flat(ss)) + Words(Flat(cs)) &&
              |Words0(cfg, dims, bs)| == |Flat(ss)| + |Flat(cs)|
  {
    var ss, cs, ds := StartsOf(bs), CountsOf(bs), Dsteps(dims);
    if UseSteps(cfg, |dims|, |bs|) {
      FitsParts(ds[..|dims| - 1], Positions(ds, ss) + Positions(ds, cs));
      FitsParts(Positions(ds, ss), Positions(ds, cs));
    } else {
      FitsParts(Flat(ss), Flat(cs));
    }
  }

  /** The constructor: sizes the buffer, then fills in header, record number and selection, with the steps that are kept
      beside the dataset if step encoding is on. The write is a record write exactly if the leading dimension is unlimited
      and every block lies in the same record. */
  method BuildRequest(cfg: bool, w: Write, dsteps: seq<nat>, metaOff: nat) returns (r: Req, buf: array<byte>)
    requires WriteOk(cfg, w) && (cfg ==> dsteps == Dsteps(w.dset.dims))
    ensures fresh(buf) && r == NewReq(cfg, w, metaOff, 0) && ReqFits(r) && buf[..] == ReqBytes(r)
    ensures var n, bs := |w.dset.dims|, w.blocks;
            r.hdr.flag.rec <==> n > 0 && w.dset.unlimited && forall i :: 0 <= i < |bs| ==> bs[i].count[0] == 1 && bs[i].start[0] == bs[0].start[0]
    ensures FlaggedFor(cfg, w, r) && Laid(w, r.hdr.flag.rec, r.hdr.flag.enc, buf[..])
  {
    hide EntryTail, WriteOk, NewReq, HdrFits, ReqFits, ReqBytes, HdrBytes, I64, Laid;
    WriteShape(cfg, w);
    var rec := TestRecord(w.dset, w.blocks);
    var n, nsel := |w.dset.dims|, |w.blocks|;
    var encdim := if rec then n - 1 else n;
    var flag := Flags(nsel > 1, UseSteps(cfg, encdim, nsel), false, rec);
    var mbsize := HDRSIZE + (if rec then 8 else 0) + (if nsel > 1 then 4 else 0) +
                  (if flag.enc then 8 * (encdim - 1 + nsel * 2) else 8 * (encdim * nsel * 2));
    var hdr := Hdr(mbsize, w.did, flag, 0, |w.data|);
    BufferSize(cfg, w, metaOff, hdr);
    buf := new byte[mbsize];
    var p := Emit(buf, 0, HdrBytes(hdr));
    if rec { p := Emit(buf, p, I64(w.blocks[0].start[0])); }
    ghost var front := buf[..p];
    var selBuf := p;
    p := EmitInner(cfg, w, dsteps, rec, buf, p);
    r := Req(hdr, if rec then Some(w.blocks[0].start[0]) else None, buf[selBuf..], metaOff);
    assert buf[..] == buf[..p] == front + EntryTail(cfg, w.dset, w.blocks);
    LayOut(cfg, w, front, buf[..], r);
    RequestLaid(cfg, w, r);
    RequestFlagged(cfg, w, r);
  }

  lemma WriteShape(cfg: bool, w: Write)
    requires WriteOk(cfg, w)
    ensures Rank(|w.dset.dims|, w.blocks) && w.blocks != [] && BodyFits(cfg, w.dset, w.blocks)
    ensures IsRec(w.dset, w.blocks) ==> w.dset.dims != [] && Fits64(w.blocks[0].start[0]) && RecNum(w.blocks) == w.blocks[0].start[0]
  {
  }

  lemma BufferSize(cfg: bool, w: Write, metaOff: nat, hdr: Hdr)
    requires WriteOk(cfg, w)
    requires var rec := IsRec(w.dset, w.blocks);
             var encdim, nsel := if rec then |w.dset.dims| - 1 else |w.dset.dims|, |w.blocks|;
             hdr == Hdr(HDRSIZE + (if rec then 8 else 0) + (if nsel > 1 then 4 else 0) +
                          (if UseSteps(cfg, encdim, nsel) then 8 * (encdim - 1 + nsel * 2) else 8 * (encdim * nsel * 2)),
                        w.did, Flags(nsel > 1, UseSteps(cfg, encdim, nsel), false, rec), 0, |w.data|)
    ensures hdr == NewReq(cfg, w, metaOff, 0).hdr && HdrFits(hdr)
    ensures hdr.metaSize == HDRSIZE + (if IsRec(w.dset, w.blocks) then 8 else 0) + |EntryTail(cfg, w.dset, w.blocks)|
  {
    hide EntryTail;
    ReqSize(cfg, w);
    var encdim := |InnerDims(IsRec(w.dset, w.blocks), w.dset.dims)|;
    assert encdim * |w.blocks| * 2 == 2 * (encdim * |w.blocks|);
  }

  method EmitInner(cfg: bool, w: Write, dsteps: seq<nat>, rec: bool, buf: array<byte>, p: nat) returns (q: nat)
    requires WriteOk(cfg, w) && (cfg ==> dsteps == Dsteps(w.dset.dims)) && rec == IsRec(w.dset, w.blocks) && p + |EntryTail(cfg, w.dset, w.blocks)| == buf.Length
    modifies buf
    ensures q == buf.Length && buf[..q] == old(buf[..p]) + EntryTail(cfg, w.dset, w.blocks)
  {
    InnerRank(w.dset, w.blocks);
    q := EmitSelection(cfg, InnerDims(rec, w.dset.dims), if cfg && rec then dsteps[1..] else dsteps, InnerBlocks(rec, w.blocks), buf, p);
  }

  lemma LayOut(cfg: bool, w: Write, front: seq<byte>, buf: seq<byte>, r: Req)
    requires WriteOk(cfg, w) && r.hdr == NewReq(cfg, w, r.metaOff, 0).hdr && HdrFits(r.hdr)
    requires r.record == RecordOf(w) && (r.record.Some? ==> Fits64(r.record.value))
    requires front == if r.record.Some? then HdrBytes(r.hdr) + I64(r.record.value) else HdrBytes(r.hdr)
    requires buf == front + EntryTail(cfg, w.dset, w.blocks) && r.sel == buf[|front|..]
    ensures r == NewReq(cfg, w, r.metaOff, 0) && ReqFits(r) && buf == ReqBytes(r)
  {
    hide EntryTail, HdrBytes, I64;
    assert r.sel == EntryTail(cfg, w.dset, w.blocks);
    FreshFits(cfg, w, r.metaOff, 0);
    if r.record.Some? { ConcatAssoc(HdrBytes(r.hdr), I64(r.record.value), r.sel); }
    assert !r.record.Some? ==> [] + r.sel == r.sel;
  }

  // ----- the decoder -----

  method ReadWordsAt(buf: seq<byte>, p: nat, n: nat) returns (ws: seq<int>, ok: bool)
    requires p + 8 * n <= |buf|
    ensures ws == GetWords(buf, p, n) && ok == NoneNegative(ws)
  {
    ws, ok := [], true;
    var i := 0;
    ghost var all := GetWords(buf, p, n);
    while i < n
      invariant 0 <= i <= n && ws == all[..i] && ok == NoneNegative(ws)
    {
      var x := Get64(buf, p + 8 * i);
      ok := ok && x >= 0;
      assert all[..i + 1] == all[..i] + [all[i]];
      ws := ws + [x];
      i := i + 1;
    }
  }

  lemma Shift(ws: seq<nat>, d: nat, x: nat)
    requires d + x + d <= |ws|
    ensures ws[d..][x..x + d] == ws[d + x..d + x + d]
  {
  }

  lemma TakeFirst(ws: seq<nat>, n: nat, d: nat)
    requires 0 < n && n * d <= |ws|
    ensures (n - 1) * d + d == n * d && TakeCoords(ws, n, d) == [ws[..d]] + TakeCoords(ws[d..], n - 1, d)
  {
    Distribute(n - 1, 1, d);
  }

  lemma {:induction false} TakeAt(ws: seq<nat>, n: nat, d: nat, i: nat)
    requires n * d <= |ws| && i < n
    ensures i * d <= i * d + d <= n * d && TakeCoords(ws, n, d)[i] == ws[i * d..i * d + d]
    decreases n
  {
    hide TakeCoords;
    MulMono(i + 1, n, d);
    Distribute(i, 1, d);
    TakeFirst(ws, n, d);
    if i > 0 {
      Distribute(i - 1, 1, d);
      TakeAt(ws[d..], n - 1, d, i - 1);
      Shift(ws, d, (i - 1) * d);
    }
  }

  /** One coordinate list of an encoded selection. */
  method ReadPositions(dsteps: seq<nat>, ws: seq<nat>) returns (cs: seq<Coord>)
    requires Positive(dsteps)
    ensures cs == DecodeAll(dsteps, ws)
  {
    cs := [];
    var i := 0;
    while i < |ws|
      invariant 0 <= i <= |ws| && cs == DecodeAll(dsteps, ws)[..i]
    {
      var c := SelDecode(dsteps, ws[i]);
      cs := cs + [c];
      i := i + 1;
    }
  }

  /** One coordinate list of a selection stored as coordinates. */
  method ReadCoords(ws: seq<nat>, n: nat, d: nat) returns (cs: seq<Coord>)
    requires n * d <= |ws|
    ensures cs == TakeCoords(ws, n, d)
  {
    cs := [];
    var i, bp := 0, 0;
    while i < n
      invariant 0 <= i <= n && bp == i * d && cs == TakeCoords(ws, n, d)[..i]
    {
      TakeAt(ws, n, d, i);
      cs := cs + [ws[bp..bp + d]];
      assert (i + 1) * d == i * d + d;
      i, bp := i + 1, bp + d;
    }
  }

  /** The selection of an entry from position p on, as `H5VL_logi_metaentry_decode` walks it. */
  method ReadSelection(mul: bool, enc: bool, encdim: nat, buf: seq<byte>, p: nat) returns (r: Option<seq<Block>>)
    ensures r == ReadTail(mul, enc, encdim, buf, p)
  {
    if (mul && p + 4 > |buf|) || (enc && encdim == 0) { return None; }
    var nsel, bp := 1, p;
    if mul {
      nsel := Get32(buf, p);
      bp := p + 4;
    }
    if nsel <= 0 || bp + 8 * WordCount(enc, encdim, nsel) > |buf| { return None; }
    var ws, ok := ReadWordsAt(buf, bp, WordCount(enc, encdim, nsel));
    if !ok { return None; }
    var ns := Naturals(ws);
    if enc {
      var dsteps: seq<nat> := ns[..encdim - 1] + [1];
      if !Positive(dsteps) { return None; }
      var ss := ReadPositions(dsteps, ns[encdim - 1..][..nsel]);
      var cs := ReadPositions(dsteps, ns[encdim - 1..][nsel..]);
      r := Some(Pair(ss, cs));
    } else {
      CommuteMul(nsel, encdim);
      var ss := ReadCoords(ns[..encdim * nsel], nsel, encdim);
      var cs := ReadCoords(ns[encdim * nsel..], nsel, encdim);
      r := Some(Pair(ss, cs));
    }
  }

  /** The decoder of an entry. */
  method ReadEntry(d: Dset, buf: seq<byte>, p: nat) returns (r: Option<Entry>)
    ensures r == DecodeEntry(d, buf, p)
  {
    hide WithOffsets, Get64, GetHdr;
    if p + HDRSIZE > |buf| { return None; }
    var hdr := GetHdr(buf, p);
    var bufp := p + HDRSIZE;
    if hdr.metaSize <= 0 { return None; }
    var encdim, recnum := |d.dims|, 0;
    if hdr.flag.rec {
      if bufp + 8 > |buf| || |d.dims| == 0 || Get64(buf, bufp) < 0 { return None; }
      encdim, recnum := |d.dims| - 1, Get64(buf, bufp);
      bufp := bufp + 8;
    }
    var sel := ReadSelection(hdr.flag.mul, hdr.flag.enc, encdim, buf, bufp);
    if sel.None? { return None; }
    var blocks := if hdr.flag.rec then InRecord(recnum, sel.value) else sel.value;
    var sels := FillOffsets(d.esize, blocks);
    r := Some(Entry(hdr, sels));
  }
}
