/** The metadata stream of a process: what every sequence of writes leaves in the queue, and that parsing it
    gives the writes back. */
module Stream {
  import opened Grid
  import opened Bytes
  import opened MetaCodec
  import opened EntryCodec
  import opened Dedup
  import opened RecordFlag
  import opened IndexList

  predicate ReqFits(r: Req)
  {
    HdrFits(r.hdr) && r.hdr.metaSize == Size(r.record, r.sel) && (r.record.Some? ==> Fits64(r.record.value))
  }

  /** The contents of a request's buffer. */
  function ReqBytes(r: Req): (b: seq<byte>)
    requires ReqFits(r)
    ensures |b| == r.hdr.metaSize
  {
    HdrBytes(r.hdr) + (RecField(r.record.Some?, if r.record.Some? then r.record.value else 0) + r.sel)
  }

  // ----- references -----

  /** The guard under which a reference is read back as the selection it replaced. */
  ghost predicate Faithful(cfg: bool, a: Write, b: Write)
    requires WriteOk(cfg, a) && WriteOk(cfg, b)
  {
    SameRecord(a, b) && (|a.blocks| == 1 || a.dset.esize == b.dset.esize)
  }

  function Moved(recnum: nat, bs: seq<Block>): (r: seq<Block>)
    requires forall i :: 0 <= i < |bs| ==> |bs[i].start| == |bs[i].count| > 0
    ensures |r| == |bs|
  {
    InRecord(recnum, InnerBlocks(true, bs))
  }

  lemma MovedHead(recnum: nat, bs: seq<Block>)
    requires bs != [] && forall i :: 0 <= i < |bs| ==> |bs[i].start| == |bs[i].count| > 0 && bs[i].count[0] == 1
    ensures Moved(recnum, bs)[0] == Block(bs[0].start[0 := recnum], bs[0].count[0 := 1])
    ensures Moved(recnum, bs)[1..] == Moved(recnum, bs[1..]) && Prod(Moved(recnum, bs)[0].count) == Prod(bs[0].count)
  {
    assert Moved(recnum, bs)[0] == Block([recnum] + bs[0].start[1..], [1] + bs[0].count[1..]);
    assert [1] + bs[0].count[1..] == bs[0].count[0 := 1] == bs[0].count;
    assert [recnum] + bs[0].start[1..] == bs[0].start[0 := recnum];
  }

  lemma OverwriteCons(recnum: nat, s: Sel, t: seq<Sel>)
    requires |s.start| == |s.count| > 0 && (t != [] ==> Recordable(t))
    ensures Recordable([s] + t)
    ensures Overwrite(recnum, [s] + t) ==
            [Sel(s.start[0 := recnum], s.count[0 := 1], s.doff)] + if t == [] then [] else Overwrite(recnum, t)
  {
  }

  lemma {:induction false} OverwriteOffsets(recnum: nat, esize: nat, base: nat, bs: seq<Block>)
    requires bs != [] && forall i :: 0 <= i < |bs| ==> |bs[i].start| == |bs[i].count| > 0 && bs[i].count[0] == 1
    ensures Recordable(WithOffsets(esize, base, bs))
    ensures Overwrite(recnum, WithOffsets(esize, base, bs)) == WithOffsets(esize, base, Moved(recnum, bs))
    decreases |bs|
  {
    var next := base + Prod(bs[0].count) * esize;
    var t := WithOffsets(esize, next, bs[1..]);
    if |bs| > 1 { OverwriteOffsets(recnum, esize, next, bs[1..]); }
    MovedHead(recnum, bs);
    OverwriteCons(recnum, Sel(bs[0].start, bs[0].count, base), t);
  }

  /** Data offsets computed with another element size are right exactly for a single block. */
  lemma OffsetsOfSize(e1: nat, e2: nat, bs: seq<Block>)
    requires bs != [] && Positive(bs[0].count)
    ensures WithOffsets(e1, 0, bs) == WithOffsets(e2, 0, bs) <==> |bs| == 1 || e1 == e2
  {
    if |bs| == 1 {
      assert WithOffsets(e1, 0, bs) == [Sel(bs[0].start, bs[0].count, 0)] == WithOffsets(e2, 0, bs);
    } else {
      ProdPositive(bs[0].count);
      assert WithOffsets(e1, 0, bs)[1].doff == Prod(bs[0].count) * e1;
      assert WithOffsets(e2, 0, bs)[1].doff == Prod(bs[0].count) * e2;
      if e1 < e2 { Scale(Prod(bs[0].count), e1, e2); }
      if e2 < e1 { Scale(Prod(bs[0].count), e2, e1); }
    }
  }

  /** Where a write's blocks come from when its entry refers to that of b. */
  lemma ReferredBlocks(cfg: bool, a: Write, b: Write)
    requires WriteOk(cfg, a) && WriteOk(cfg, b) && SameRecord(a, b) && MayEqual(NewReq(cfg, a, 0, 0), NewReq(cfg, b, 0, 0))
    ensures !IsRec(a.dset, a.blocks) ==> a.blocks == b.blocks
    ensures IsRec(a.dset, a.blocks) ==> InRecord(RecNum(a.blocks), InnerBlocks(true, b.blocks)) == a.blocks
    ensures IsRec(a.dset, a.blocks) && RecNum(a.blocks) == RecNum(b.blocks) ==> a.blocks == b.blocks
  {
    EqualSelections(cfg, a, b);
    InnerBack(a.dset, a.blocks);
    InnerBack(b.dset, b.blocks);
  }

  lemma RefFields(buf: seq<byte>, p: nat, h: Hdr, rec: bool, recnum: nat, roff: int)
    requires HdrFits(h) && Fits64(recnum) && Fits64(roff)
    requires At(buf, p, HdrBytes(h) + (RecField(rec, recnum) + I64(roff)))
    ensures p + HDRSIZE + (if rec then 16 else 8) <= |buf|
    ensures GetHdr(buf, p) == h && (rec ==> Get64(buf, p + HDRSIZE) == recnum)
    ensures Get64(buf, if rec then p + HDRSIZE + 8 else p + HDRSIZE) == roff
  {
    var q := p + HDRSIZE;
    AtSplit(buf, p, HdrBytes(h), RecField(rec, recnum) + I64(roff));
    ReadHdr(buf, p, h);
    if rec {
      AtSplit(buf, q, I64(recnum), I64(roff));
      Read64(buf, q, recnum);
      Read64(buf, q + 8, roff);
    } else {
      assert [] + I64(roff) == I64(roff);
      Read64(buf, q, roff);
    }
  }

  lemma RefByFields(buf: seq<byte>, p: nat, cache: Cache, h: Hdr, recnum: nat, roff: int)
    requires var rec := h.flag.rec;
             p + HDRSIZE + (if rec then 16 else 8) <= |buf| && GetHdr(buf, p) == h && h.metaSize > 0 &&
             (rec ==> Get64(buf, p + HDRSIZE) == recnum) && Get64(buf, if rec then p + HDRSIZE + 8 else p + HDRSIZE) == roff &&
             p + roff in cache && cache[p + roff] != [] && (rec ==> Recordable(cache[p + roff]))
    ensures RefDecode(buf, p, cache) ==
            Some(Entry(h, if h.flag.rec then Overwrite(recnum, cache[p + roff]) else cache[p + roff]))
  {
  }

  /** Decoding of a reference whose target is in the cache: the referenced selections, moved to the record
      that the entry names, if it names one. */
  lemma RefDecodeSteps(buf: seq<byte>, p: nat, cache: Cache, h: Hdr, f: Flags, recnum: nat, roff: int)
    requires HdrFits(h) && h.metaSize > 0 && h.flag == f && Fits64(recnum) && Fits64(roff)
    requires At(buf, p, HdrBytes(h) + (RecField(f.rec, recnum) + I64(roff)))
    requires p + roff in cache && cache[p + roff] != [] && (f.rec ==> Recordable(cache[p + roff]))
    ensures RefDecode(buf, p, cache) == Some(Entry(h, if f.rec then Overwrite(recnum, cache[p + roff]) else cache[p + roff]))
  {
    RefFields(buf, p, h, f.rec, recnum, roff);
    RefByFields(buf, p, cache, h, recnum, roff);
  }

  /** The reference keeps its record number unless both are writes of the same record. */
  ghost predicate Keeps(a: Write, b: Write)
    requires Rank(|a.dset.dims|, a.blocks) && Rank(|b.dset.dims|, b.blocks) && a.blocks != [] && b.blocks != []
  {
    IsRec(a.dset, a.blocks) && !(IsRec(b.dset, b.blocks) && RecNum(a.blocks) == RecNum(b.blocks))
  }

  /** What a reference is read back as. */
  lemma ReferredSels(cfg: bool, a: Write, b: Write)
    requires WriteOk(cfg, a) && WriteOk(cfg, b) && SameRecord(a, b)
    requires MayEqual(NewReq(cfg, a, 0, 0), NewReq(cfg, b, 0, 0))
    ensures var t := WithOffsets(b.dset.esize, 0, b.blocks);
            t != [] && (Keeps(a, b) ==> Recordable(t)) &&
            WithOffsets(b.dset.esize, 0, a.blocks) == if Keeps(a, b) then Overwrite(RecNum(a.blocks), t) else t
  {
    ReferredBlocks(cfg, a, b);
    if Keeps(a, b) { OverwriteOffsets(RecNum(a.blocks), b.dset.esize, 0, b.blocks); }
  }

  /** s is a reference that stands for write a, `roff` bytes after the entry of write b. */
  ghost predicate IsReference(cfg: bool, a: Write, b: Write, s: Req, roff: int)
    requires WriteOk(cfg, a) && WriteOk(cfg, b)
  {
    ReqFits(s) && Fits64(roff) && s.sel == I64(roff) &&
    s.record == (if Keeps(a, b) then Some(RecNum(a.blocks)) else None) &&
    s.hdr.flag == EntryFlags(cfg, a.dset, a.blocks).(ref := true, rec := Keeps(a, b))
  }

  /** Deduplication makes references. */
  lemma ReferMakesReference(cfg: bool, a: Write, b: Write, r: Req, t: Req)
    requires WriteOk(cfg, a) && WriteOk(cfg, b) && Fits64(r.hdr.foff) && Fits64(t.metaOff - r.metaOff)
    requires r == NewReq(cfg, a, r.metaOff, r.hdr.foff) && t == NewReq(cfg, b, t.metaOff, t.hdr.foff)
    ensures IsReference(cfg, a, b, Refer(r, t), t.metaOff - r.metaOff)
  {
    hide EntryTail;
  }

  lemma RefCore(cfg: bool, a: Write, b: Write, s: Req, roff: int, buf: seq<byte>, p: nat, cache: Cache)
    requires WriteOk(cfg, a) && WriteOk(cfg, b) && SameRecord(a, b) && MayEqual(NewReq(cfg, a, 0, 0), NewReq(cfg, b, 0, 0))
    requires IsReference(cfg, a, b, s, roff) && At(buf, p, ReqBytes(s))
    requires p + roff in cache && cache[p + roff] == WithOffsets(b.dset.esize, 0, b.blocks)
    ensures RefDecode(buf, p, cache) == Some(Entry(s.hdr, WithOffsets(b.dset.esize, 0, a.blocks)))
  {
    ReferredSels(cfg, a, b);
    RefDecodeSteps(buf, p, cache, s.hdr, EntryFlags(cfg, a.dset, a.blocks).(ref := true, rec := Keeps(a, b)),
                   if Keeps(a, b) then RecNum(a.blocks) else 0, roff);
  }

  /** Across the record flag nothing is read back right. */
  lemma RefAcross(cfg: bool, a: Write, b: Write, s: Req, roff: int, buf: seq<byte>, p: nat, cache: Cache)
    requires WriteOk(cfg, a) && WriteOk(cfg, b) && !SameRecord(a, b) && MayEqual(NewReq(cfg, a, 0, 0), NewReq(cfg, b, 0, 0))
    requires p + roff in cache && cache[p + roff] == WithOffsets(b.dset.esize, 0, b.blocks)
    requires IsReference(cfg, a, b, s, roff) && At(buf, p, ReqBytes(s))
    ensures RefDecode(buf, p, cache) != Some(Entry(s.hdr, WithOffsets(a.dset.esize, 0, a.blocks)))
  {
    hide WriteOk, NewReq, MayEqual, IsRec, IsReference, ReqBytes, RefDecode, Get64, I64;
    SomeBlock(cfg, a);
    SomeBlock(cfg, b);
    BothWays(NewReq(cfg, a, 0, 0), NewReq(cfg, b, 0, 0));
    if IsRec(a.dset, a.blocks) { FlagsTell(cfg, a, b); } else { FlagsTell(cfg, b, a); }
    var t, u := WithOffsets(b.dset.esize, 0, b.blocks), WithOffsets(a.dset.esize, 0, a.blocks);
    assert t[0].start == b.blocks[0].start && u[0].start == a.blocks[0].start;
    if RefDecode(buf, p, cache) == Some(Entry(s.hdr, u)) { RefTails(cfg, a, b, s, roff, buf, p, cache, u); }
  }

  lemma BothWays(r: Req, t: Req)
    requires MayEqual(r, t)
    ensures MayEqual(t, r)
  {
  }

  /** A reference has the starts of its target below the first dimension. */
  lemma RefTails(cfg: bool, a: Write, b: Write, s: Req, roff: int, buf: seq<byte>, p: nat, cache: Cache, u: seq<Sel>)
    requires WriteOk(cfg, a) && WriteOk(cfg, b) && IsReference(cfg, a, b, s, roff) && At(buf, p, ReqBytes(s))
    requires p + roff in cache && cache[p + roff] != [] && RefDecode(buf, p, cache) == Some(Entry(s.hdr, u))
    ensures u != [] && |u[0].start| == |cache[p + roff][0].start| && (u[0].start != [] ==> u[0].start[1..] == cache[p + roff][0].start[1..])
  {
    hide WriteOk, NewReq, MayEqual, IsRec, At, HdrBytes, I64, Get64, GetHdr;
    RefFields(buf, p, s.hdr, s.record.Some?, if s.record.Some? then s.record.value else 0, roff);
  }

  /** Reference round trip: an entry that refers to one that compares equal is read back as the selection it was
      written with exactly if both or neither are record writes and there is one block or the element sizes
      agree. Otherwise it is read back with the blocks or the data offsets of the entry it refers to. */
  lemma RefRoundTrip(cfg: bool, a: Write, b: Write, s: Req, roff: int, buf: seq<byte>, p: nat, cache: Cache)
    requires WriteOk(cfg, a) && WriteOk(cfg, b) && MayEqual(NewReq(cfg, a, 0, 0), NewReq(cfg, b, 0, 0))
    requires IsReference(cfg, a, b, s, roff) && At(buf, p, ReqBytes(s))
    requires p + roff in cache && cache[p + roff] == WithOffsets(b.dset.esize, 0, b.blocks)
    ensures RefDecode(buf, p, cache) == Some(Entry(s.hdr, WithOffsets(a.dset.esize, 0, a.blocks))) <==> Faithful(cfg, a, b)
  {
    hide WriteOk, NewReq, MayEqual, IsReference, RefDecode, At, ReqBytes, ReqFits;
    SomeBlock(cfg, a);
    SomeBlock(cfg, b);
    if SameRecord(a, b) {
      RefCore(cfg, a, b, s, roff, buf, p, cache);
      OffsetsOfSize(a.dset.esize, b.dset.esize, a.blocks);
    } else {
      RefAcross(cfg, a, b, s, roff, buf, p, cache);
    }
  }

  lemma SomeBlock(cfg: bool, a: Write)
    requires WriteOk(cfg, a)
    ensures Rank(|a.dset.dims|, a.blocks) && a.blocks != [] && Positive(a.blocks[0].count)
  {
  }

  // ----- the queue -----

  /** Where entry i starts in the process's metadata; the end of the last one for i == |q.reqs|. */
  function Offset(q: Queue, i: nat): nat
    requires i <= |q.reqs|
  {
    if i < |q.reqs| then q.reqs[i].metaOff else q.mdsize
  }

  /** Anticipated offsets and total size are exact prefix sums of the entry sizes. */
  ghost predicate Chain(q: Queue)
  {
    Offset(q, 0) == 0 &&
    forall i :: 0 <= i < |q.reqs| ==>
      ReqFits(q.reqs[i]) && Offset(q, i + 1) == q.reqs[i].metaOff + q.reqs[i].hdr.metaSize
  }

  ghost predicate Plain(cfg: bool, q: Queue, ws: seq<Write>, i: nat)
  {
    i < |q.reqs| == |ws| && WriteOk(cfg, ws[i]) && q.reqs[i] == NewReq(cfg, ws[i], q.reqs[i].metaOff, q.reqs[i].hdr.foff)
  }

  ghost predicate Equal(cfg: bool, a: Write, b: Write)
  {
    WriteOk(cfg, a) && WriteOk(cfg, b) && Faithful(cfg, a, b) && MayEqual(NewReq(cfg, a, 0, 0), NewReq(cfg, b, 0, 0))
  }

  ghost predicate RefersTo(cfg: bool, q: Queue, ws: seq<Write>, i: nat, j: nat)
  {
    j < i < |q.reqs| == |ws| && Plain(cfg, q, ws, j) && Equal(cfg, ws[i], ws[j]) &&
    IsReference(cfg, ws[i], ws[j], q.reqs[i], q.reqs[j].metaOff - q.reqs[i].metaOff) &&
    q.reqs[i].hdr.did == ws[i].did && q.reqs[i].hdr.fsize == |ws[i].data|
  }

  ghost predicate Recorded(cfg: bool, share: bool, q: Queue, ws: seq<Write>, i: nat)
  {
    Plain(cfg, q, ws, i) || (share && exists j :: RefersTo(cfg, q, ws, i, j))
  }

  /** The queue records the writes: each one in full or as a reference to an earlier one recorded in full. The table
      holds those recorded in full that are longer than a reference. */
  ghost predicate Stored(cfg: bool, share: bool, q: Queue, ws: seq<Write>)
  {
    |q.reqs| == |ws| && Chain(q) && (forall i :: 0 <= i < |ws| ==> Recorded(cfg, share, q, ws, i)) &&
    TableHolds(share, q) && forall t :: t in q.table ==> Plain(cfg, q, ws, t)
  }

  /** Guard of a write: entries fit their fields and a hit is on an entry it may stand in for. */
  ghost predicate Admissible(cfg: bool, share: bool, q: Queue, ws: seq<Write>, w: Write, hit: Option<nat>)
  {
    WriteOk(cfg, w) && Fits64(q.mdsize) && Found(q, NewReq(cfg, w, q.mdsize, 0), hit) &&
    (hit.Some? ==> hit.value < |ws| && WriteOk(cfg, ws[hit.value]) && Faithful(cfg, w, ws[hit.value]))
  }

  lemma PlainGrows(cfg: bool, q: Queue, ws: seq<Write>, i: nat, r: Req, w: Write, q': Queue)
    requires Plain(cfg, q, ws, i) && q'.reqs == q.reqs + [r]
    ensures Plain(cfg, q', ws + [w], i)
  {
    hide WriteOk, NewReq;
  }

  lemma RecordedGrows(cfg: bool, share: bool, q: Queue, ws: seq<Write>, i: nat, r: Req, w: Write, q': Queue)
    requires Recorded(cfg, share, q, ws, i) && i < |q.reqs| && q'.reqs == q.reqs + [r]
    ensures Recorded(cfg, share, q', ws + [w], i)
  {
    hide WriteOk, NewReq, IsReference, Equal;
    if Plain(cfg, q, ws, i) {
      PlainGrows(cfg, q, ws, i, r, w, q');
    } else {
      var j :| RefersTo(cfg, q, ws, i, j);
      PlainGrows(cfg, q, ws, j, r, w, q');
      assert RefersTo(cfg, q', ws + [w], i, j);
    }
  }

  lemma ChainGrows(q: Queue, r: Req, q': Queue)
    requires Chain(q) && ReqFits(r) && r.metaOff == q.mdsize
    requires q'.reqs == q.reqs + [r] && q'.mdsize == q.mdsize + r.hdr.metaSize
    ensures Chain(q')
  {
    hide ReqFits;
    forall i | 0 <= i < |q'.reqs|
      ensures ReqFits(q'.reqs[i]) && Offset(q', i + 1) == q'.reqs[i].metaOff + q'.reqs[i].hdr.metaSize
    {
      if i < |q.reqs| { assert Offset(q', i + 1) == Offset(q, i + 1); }
    }
  }

  lemma TableGrows(share: bool, q: Queue, r: Req, entered: bool)
    requires TableHolds(share, q) && r.hdr.metaSize >= 0 && (entered <==> share && LongInFull(r))
    ensures TableHolds(share, Queued(q, r, entered))
  {
    var q' := Queued(q, r, entered);
    forall t ensures t in q'.table <==> share && 0 <= t < |q'.reqs| && LongInFull(q'.reqs[t])
    {
      if 0 <= t < |q.reqs| { assert q'.reqs[t] == q.reqs[t]; }
    }
  }

  lemma StoredGrows(cfg: bool, share: bool, q: Queue, ws: seq<Write>, r: Req, w: Write, entered: bool)
    requires Stored(cfg, share, q, ws) && ReqFits(r) && r.metaOff == q.mdsize && r.hdr.metaSize >= 0
    requires Recorded(cfg, share, Queued(q, r, entered), ws + [w], |ws|)
    requires entered ==> Plain(cfg, Queued(q, r, entered), ws + [w], |ws|)
    requires entered <==> share && LongInFull(r)
    ensures Stored(cfg, share, Queued(q, r, entered), ws + [w])
  {
    hide Plain, Recorded, ReqFits, TableHolds;
    var q' := Queued(q, r, entered);
    ChainGrows(q, r, q');
    TableGrows(share, q, r, entered);
    forall i | 0 <= i < |ws + [w]| ensures Recorded(cfg, share, q', ws + [w], i)
    {
      if i < |ws| { RecordedGrows(cfg, share, q, ws, i, r, w, q'); }
    }
    forall t | t in q'.table ensures Plain(cfg, q', ws + [w], t)
    {
      if t in q.table { PlainGrows(cfg, q, ws, t, r, w, q'); }
    }
  }

  /** Every write keeps the queue a record of all writes so far. */
  lemma EnqueueKeeps(cfg: bool, share: bool, q: Queue, ws: seq<Write>, w: Write, hit: Option<nat>)
    requires Stored(cfg, share, q, ws) && Admissible(cfg, share, q, ws, w, hit)
    ensures hit.Some? ==> Fits64(q.reqs[hit.value].metaOff - q.mdsize)
    ensures Stored(cfg, share, Enqueue(cfg, share, q, w, hit), ws + [w])
  {
    hide Stored, WriteOk, Plain, Faithful, NewReq, Refer, Equal, MayEqual, Queued, ReqFits, Shared;
    StoredFacts(cfg, share, q, ws);
    var r := NewReq(cfg, w, q.mdsize, 0);
    FreshFits(cfg, w, q.mdsize, 0);
    if hit.Some? {
      HitInRange(cfg, share, q, ws, hit.value);
      HitIsEqual(cfg, q, ws, w, hit.value);
    }
    if Shared(share, r) && hit.Some? {
      SharedMeans(share, r);
      StoreReference(cfg, q, ws, w, hit.value, Refer(r, q.reqs[hit.value]));
    } else {
      StoreInFull(cfg, share, q, ws, w, r, Shared(share, r));
    }
  }

  lemma SharedMeans(share: bool, r: Req)
    requires Shared(share, r)
    ensures share
  {
  }

  lemma StoredFacts(cfg: bool, share: bool, q: Queue, ws: seq<Write>)
    requires Stored(cfg, share, q, ws)
    ensures |q.reqs| == |ws| && Chain(q) && TableHolds(share, q) && forall t :: t in q.table ==> Plain(cfg, q, ws, t)
  {
  }

  lemma HitIsEqual(cfg: bool, q: Queue, ws: seq<Write>, w: Write, t: nat)
    requires Plain(cfg, q, ws, t) && WriteOk(cfg, w) && Faithful(cfg, w, ws[t])
    requires MayEqual(NewReq(cfg, w, q.mdsize, 0), q.reqs[t])
    ensures Equal(cfg, w, ws[t])
  {
    hide EntryTail, WriteOk, Faithful;
  }

  lemma FreshFits(cfg: bool, w: Write, off: nat, foff: int)
    requires WriteOk(cfg, w) && Fits64(foff)
    ensures var r := NewReq(cfg, w, off, foff);
            ReqFits(r) && r.metaOff == off && r == NewReq(cfg, w, r.metaOff, r.hdr.foff)
  {
    hide EntryTail;
  }

  lemma StoreInFull(cfg: bool, share: bool, q: Queue, ws: seq<Write>, w: Write, r: Req, entered: bool)
    requires Stored(cfg, share, q, ws) && WriteOk(cfg, w) && r == NewReq(cfg, w, q.mdsize, 0) && entered == Shared(share, r)
    ensures r.hdr.metaSize >= 0 && Stored(cfg, share, Queued(q, r, entered), ws + [w])
  {
    hide Stored, WriteOk, NewReq, HdrFits;
    FreshFits(cfg, w, q.mdsize, 0);
    NewFacts(cfg, w, q.mdsize, 0);
    StoredFacts(cfg, share, q, ws);
    assert Plain(cfg, Queued(q, r, entered), ws + [w], |ws|);
    StoredGrows(cfg, share, q, ws, r, w, entered);
  }

  lemma MakeReference(cfg: bool, q: Queue, ws: seq<Write>, w: Write, t: nat, s: Req)
    requires WriteOk(cfg, w) && t < |ws| && Plain(cfg, q, ws, t) && Equal(cfg, w, ws[t])
    requires Fits64(q.reqs[t].metaOff - q.mdsize) && s == Refer(NewReq(cfg, w, q.mdsize, 0), q.reqs[t])
    ensures WriteOk(cfg, ws[t]) && IsReference(cfg, w, ws[t], s, q.reqs[t].metaOff - q.mdsize)
    ensures ReqFits(s) && s.metaOff == q.mdsize && s.hdr.did == w.did && s.hdr.fsize == |w.data| && s.hdr.flag.ref
  {
    hide MayEqual, WriteOk, NewReq, Refer, IsReference, Faithful, ReqFits;
    NewFacts(cfg, w, q.mdsize, 0);
    ReferMakesReference(cfg, w, ws[t], NewReq(cfg, w, q.mdsize, 0), q.reqs[t]);
    ReferKeeps(NewReq(cfg, w, q.mdsize, 0), q.reqs[t]);
    ReferenceFits(cfg, w, ws[t], s, q.reqs[t].metaOff - q.mdsize);
  }

  lemma NewFacts(cfg: bool, w: Write, off: nat, foff: int)
    requires WriteOk(cfg, w)
    ensures var r := NewReq(cfg, w, off, foff);
            r.metaOff == off && r.hdr.did == w.did && r.hdr.fsize == |w.data| && r.hdr.foff == foff && !r.hdr.flag.ref
  {
    hide EntryTail, Encodes;
  }

  lemma ReferKeeps(r: Req, t: Req)
    requires Fits64(t.metaOff - r.metaOff)
    ensures var s := Refer(r, t);
            s.metaOff == r.metaOff && s.hdr.did == r.hdr.did && s.hdr.fsize == r.hdr.fsize && s.hdr.flag.ref && s.hdr.metaSize > 0
  {
  }

  lemma ReferenceFits(cfg: bool, a: Write, b: Write, s: Req, roff: int)
    requires WriteOk(cfg, a) && WriteOk(cfg, b) && IsReference(cfg, a, b, s, roff)
    ensures ReqFits(s)
  {
    hide WriteOk, ReqFits;
  }

  lemma StoreReference(cfg: bool, q: Queue, ws: seq<Write>, w: Write, t: nat, s: Req)
    requires Stored(cfg, true, q, ws) && WriteOk(cfg, w) && t < |ws| && Plain(cfg, q, ws, t) && Equal(cfg, w, ws[t])
    requires Fits64(q.reqs[t].metaOff - q.mdsize) && s == Refer(NewReq(cfg, w, q.mdsize, 0), q.reqs[t])
    ensures s.hdr.metaSize >= 0 && Stored(cfg, true, Queued(q, s, false), ws + [w])
  {
    hide Stored, Equal, WriteOk, NewReq, Refer, IsReference, Plain, HdrFits;
    StoredFacts(cfg, true, q, ws);
    MakeReference(cfg, q, ws, w, t, s);
    PlainGrows(cfg, q, ws, t, s, w, Queued(q, s, false));
    assert RefersTo(cfg, Queued(q, s, false), ws + [w], |ws|, t);
    StoredGrows(cfg, true, q, ws, s, w, false);
  }

  lemma OffsetStep(q: Queue, i: nat)
    requires Chain(q) && i < |q.reqs|
    ensures Offset(q, i) + HDRSIZE <= Offset(q, i + 1) == Offset(q, i) + q.reqs[i].hdr.metaSize && ReqFits(q.reqs[i])
  {
    hide HdrFits;
  }

  lemma {:induction false} OffsetsOrdered(q: Queue, i: nat, j: nat)
    requires Chain(q) && i <= j <= |q.reqs|
    ensures Offset(q, i) + (j - i) <= Offset(q, j)
    decreases j - i
  {
    hide Chain;
    if i < j {
      OffsetsOrdered(q, i, j - 1);
      OffsetStep(q, j - 1);
    }
  }

  lemma HitInRange(cfg: bool, share: bool, q: Queue, ws: seq<Write>, t: nat)
    requires Stored(cfg, share, q, ws) && t < |q.reqs| && Fits64(q.mdsize)
    ensures Fits64(q.reqs[t].metaOff - q.mdsize)
  {
    OffsetsOrdered(q, t, |q.reqs|);
  }

  // ----- the stream -----

  /** The bytes of the requests one after the other: what the process contributes to a metadata dataset. */
  function Section(reqs: seq<Req>): (b: seq<byte>)
    requires forall i :: 0 <= i < |reqs| ==> ReqFits(reqs[i])
    decreases |reqs|
  {
    if reqs == [] then [] else Section(reqs[..|reqs| - 1]) + ReqBytes(reqs[|reqs| - 1])
  }

  lemma {:induction false} SectionLen(q: Queue, k: nat)
    requires Chain(q) && k <= |q.reqs|
    ensures (forall i :: 0 <= i < k ==> ReqFits(q.reqs[i])) && |Section(q.reqs[..k])| == Offset(q, k)
    decreases k
  {
    hide HdrFits;
    if k > 0 {
      SectionLen(q, k - 1);
      OffsetStep(q, k - 1);
      assert q.reqs[..k][..k - 1] == q.reqs[..k - 1];
    }
  }

  lemma {:induction false} EntryStands(q: Queue, k: nat, i: nat, buf: seq<byte>, base: nat)
    requires Chain(q) && i < k <= |q.reqs|
    requires (forall j :: 0 <= j < k ==> ReqFits(q.reqs[j])) && At(buf, base, Section(q.reqs[..k]))
    ensures ReqFits(q.reqs[i]) && At(buf, base + Offset(q, i), ReqBytes(q.reqs[i]))
    decreases k
  {
    hide ReqFits, ReqBytes, Chain;
    SectionLen(q, k - 1);
    assert q.reqs[..k][..k - 1] == q.reqs[..k - 1];
    AtSplit(buf, base, Section(q.reqs[..k - 1]), ReqBytes(q.reqs[k - 1]));
    if i < k - 1 { EntryStands(q, k - 1, i, buf, base); }
  }

  /** The datasets as they are when the metadata are read: their extents may have been set since. */
  ghost predicate Typed(dsets: seq<Dset>, ws: seq<Write>)
  {
    forall i :: 0 <= i < |ws| ==> ws[i].did < |dsets| && SameType(ws[i].dset, dsets[ws[i].did])
  }

  /** The entry a reader should find for write i. */
  function Expected(q: Queue, ws: seq<Write>, i: nat): Entry
    requires i < |q.reqs| == |ws|
  {
    Entry(q.reqs[i].hdr, WithOffsets(ws[i].dset.esize, 0, ws[i].blocks))
  }

  function AllExpected(q: Queue, ws: seq<Write>, i: nat): (es: seq<Entry>)
    requires i <= |q.reqs| == |ws|
    ensures |es| == |ws| - i
  {
    seq(|ws| - i, k requires 0 <= k < |ws| - i => Expected(q, ws, i + k))
  }

  /** The cache holds the selections of all entries before i that were recorded in full. */
  ghost predicate Cached(cfg: bool, q: Queue, ws: seq<Write>, base: nat, i: nat, cache: Cache)
    requires |q.reqs| == |ws|
  {
    forall j :: 0 <= j < i && Plain(cfg, q, ws, j) ==>
      base + Offset(q, j) in cache && cache[base + Offset(q, j)] == Expected(q, ws, j).sels
  }

  lemma PlainStep(cfg: bool, share: bool, dsets: seq<Dset>, q: Queue, ws: seq<Write>, i: nat, buf: seq<byte>, p: nat, cache: Cache)
    requires Plain(cfg, q, ws, i) && Typed(dsets, ws) && ReqFits(q.reqs[i]) && At(buf, p, ReqBytes(q.reqs[i]))
    ensures Step(share, dsets, buf, p, cache) == Some(Expected(q, ws, i)) && !IsRef(share, q.reqs[i].hdr)
  {
    var w, r := ws[i], q.reqs[i];
    assert ReqBytes(r) == HdrBytes(r.hdr) + EntryBody(cfg, w.dset, w.blocks);
    AtSplit(buf, p, HdrBytes(r.hdr), EntryBody(cfg, w.dset, w.blocks));
    ReadHdr(buf, p, r.hdr);
    EntryRoundTrip(cfg, w.dset, w.blocks, r.hdr, dsets[w.did], buf, p);
  }

  lemma RefStep(cfg: bool, dsets: seq<Dset>, q: Queue, ws: seq<Write>, i: nat, j: nat, buf: seq<byte>, base: nat, cache: Cache)
    requires Chain(q) && RefersTo(cfg, q, ws, i, j) && Typed(dsets, ws) && Cached(cfg, q, ws, base, i, cache)
    requires ReqFits(q.reqs[i]) && At(buf, base + Offset(q, i), ReqBytes(q.reqs[i]))
    ensures Step(true, dsets, buf, base + Offset(q, i), cache) == Some(Expected(q, ws, i)) && IsRef(true, q.reqs[i].hdr)
  {
    hide WriteOk, Equal, Plain, IsReference, ReqBytes, ReqFits, RefDecode, WithOffsets, Chain, NewReq, MayEqual, SameRecord, GetHdr, At;
    var s, p := q.reqs[i], base + Offset(q, i);
    HdrStands(s, buf, p);
    RefersFacts(cfg, ws[i], ws[j], s, q.reqs[j].metaOff - s.metaOff);
    RefRoundTrip(cfg, ws[i], ws[j], s, q.reqs[j].metaOff - s.metaOff, buf, p, cache);
  }

  lemma HdrStands(r: Req, buf: seq<byte>, p: nat)
    requires ReqFits(r) && At(buf, p, ReqBytes(r))
    ensures p + HDRSIZE <= |buf| && GetHdr(buf, p) == r.hdr
  {
    AtSplit(buf, p, HdrBytes(r.hdr), RecField(r.record.Some?, if r.record.Some? then r.record.value else 0) + r.sel);
    ReadHdr(buf, p, r.hdr);
  }

  lemma RefersFacts(cfg: bool, a: Write, b: Write, s: Req, roff: int)
    requires Equal(cfg, a, b) && IsReference(cfg, a, b, s, roff)
    ensures WriteOk(cfg, a) && WriteOk(cfg, b) && s.hdr.flag.ref && SameRecord(a, b) && MayEqual(NewReq(cfg, a, 0, 0), NewReq(cfg, b, 0, 0))
    ensures |a.blocks| == 1 || a.dset.esize == b.dset.esize
  {
    hide WriteOk, NewReq, MayEqual;
  }

  lemma StoredStep(cfg: bool, share: bool, dsets: seq<Dset>, q: Queue, ws: seq<Write>, i: nat, buf: seq<byte>, base: nat, cache: Cache)
    requires Chain(q) && Recorded(cfg, share, q, ws, i) && i < |q.reqs| == |ws| && Typed(dsets, ws) && Cached(cfg, q, ws, base, i, cache)
    requires ReqFits(q.reqs[i]) && At(buf, base + Offset(q, i), ReqBytes(q.reqs[i]))
    ensures Step(share, dsets, buf, base + Offset(q, i), cache) == Some(Expected(q, ws, i))
    ensures Cached(cfg, q, ws, base, i + 1, Remember(share, base + Offset(q, i), Expected(q, ws, i), cache))
  {
    hide Plain, RefersTo, ReqFits, ReqBytes, Typed, Step, WithOffsets, Chain;
    var p := base + Offset(q, i);
    forall j | 0 <= j < i ensures Offset(q, j) < Offset(q, i) { OffsetsOrdered(q, j, i); }
    if Plain(cfg, q, ws, i) {
      PlainStep(cfg, share, dsets, q, ws, i, buf, p, cache);
    } else {
      var j :| RefersTo(cfg, q, ws, i, j);
      RefStep(cfg, dsets, q, ws, i, j, buf, base, cache);
    }
  }

  /** Parsing the entries from number i on yields what was written, and goes on after them. */
  lemma {:induction false} ParseFrom(cfg: bool, share: bool, dsets: seq<Dset>, q: Queue, ws: seq<Write>, i: nat,
      buf: seq<byte>, base: nat, end: nat, cache: Cache) returns (cache': Cache)
    requires Stored(cfg, share, q, ws) && Typed(dsets, ws) && i <= |ws|
    requires (forall j :: 0 <= j < |ws| ==> ReqFits(q.reqs[j])) && At(buf, base, Section(q.reqs)) && end >= base + q.mdsize
    requires Cached(cfg, q, ws, base, i, cache)
    ensures ParseList(share, dsets, buf, base + Offset(q, i), end, cache)
         == Append(AllExpected(q, ws, i), ParseList(share, dsets, buf, base + q.mdsize, end, cache'))
    ensures Cached(cfg, q, ws, base, |ws|, cache')
    decreases |ws| - i
  {
    hide Chain, Recorded, ReqFits, ReqBytes, Typed, Step, Cached, Expected, AllExpected, Append, Push, Section, At, Remember;
    if i == |ws| {
      cache' := cache;
      AppendNothing(q, ws, ParseList(share, dsets, buf, base + q.mdsize, end, cache));
    } else {
      assert q.reqs[..|ws|] == q.reqs;
      EntryStands(q, |ws|, i, buf, base);
      StoredStep(cfg, share, dsets, q, ws, i, buf, base, cache);
      OffsetStep(q, i);
      OffsetsOrdered(q, i + 1, |ws|);
      var e := Expected(q, ws, i);
      ExpectedHdr(q, ws, i);
      var c := Remember(share, base + Offset(q, i), e, cache);
      cache' := ParseFrom(cfg, share, dsets, q, ws, i + 1, buf, base, end, c);
      AllExpectedCons(q, ws, i);
      PushAppend(e, AllExpected(q, ws, i + 1), ParseList(share, dsets, buf, base + q.mdsize, end, cache'));
    }
  }

  lemma ExpectedHdr(q: Queue, ws: seq<Write>, i: nat)
    requires i < |q.reqs| == |ws|
    ensures Expected(q, ws, i).hdr == q.reqs[i].hdr
  {
  }

  lemma AppendNothing(q: Queue, ws: seq<Write>, r: Option<seq<Entry>>)
    requires |q.reqs| == |ws|
    ensures r == Append(AllExpected(q, ws, |ws|), r)
  {
    if r.Some? { assert AllExpected(q, ws, |ws|) + r.value == r.value; }
  }

  lemma AllExpectedCons(q: Queue, ws: seq<Write>, i: nat)
    requires i < |q.reqs| == |ws|
    ensures AllExpected(q, ws, i) == [Expected(q, ws, i)] + AllExpected(q, ws, i + 1)
  {
  }

  lemma PushAppend(e: Entry, es: seq<Entry>, r: Option<seq<Entry>>)
    ensures Push(e, Append(es, r)) == Append([e] + es, r)
  {
    if r.Some? { assert [e] + (es + r.value) == ([e] + es) + r.value; }
  }

  // ----- runs -----

  datatype Call = Call(write: Write, hit: Option<nat>)

  function Writes(calls: seq<Call>): (ws: seq<Write>)
    ensures |ws| == |calls|
  {
    seq(|calls|, i requires 0 <= i < |calls| => calls[i].write)
  }

  ghost predicate Next(cfg: bool, share: bool, calls: seq<Call>, i: nat, q: Queue, q': Queue)
    requires i < |calls|
  {
    Admissible(cfg, share, q, Writes(calls[..i]), calls[i].write, calls[i].hit) &&
    (calls[i].hit.Some? ==> Fits64(q.reqs[calls[i].hit.value].metaOff - q.mdsize)) &&
    q' == Enqueue(cfg, share, q, calls[i].write, calls[i].hit)
  }

  /** The queue's states through a sequence of writes, from the empty queue. */
  ghost predicate Run(cfg: bool, share: bool, calls: seq<Call>, qs: seq<Queue>)
  {
    |qs| == |calls| + 1 && qs[0] == EMPTY && forall i :: 0 <= i < |calls| ==> Next(cfg, share, calls, i, qs[i], qs[i + 1])
  }

  lemma {:induction false} RunStored(cfg: bool, share: bool, calls: seq<Call>, qs: seq<Queue>, n: nat)
    requires Run(cfg, share, calls, qs) && n <= |calls|
    ensures Stored(cfg, share, qs[n], Writes(calls[..n]))
    decreases n
  {
    hide Admissible, Stored, Enqueue, Next, Writes;
    if n == 0 {
      NothingStored(cfg, share, calls);
    } else {
      RunStored(cfg, share, calls, qs, n - 1);
      assert Next(cfg, share, calls, n - 1, qs[n - 1], qs[n]);
      NextStored(cfg, share, calls, n - 1, qs[n - 1], qs[n]);
    }
  }

  /** What the table holds after any sequence of writes: the entries kept in full that are longer than a reference. */
  lemma RunTable(cfg: bool, share: bool, calls: seq<Call>, qs: seq<Queue>, n: nat)
    requires Run(cfg, share, calls, qs) && n <= |calls|
    ensures |qs[n].reqs| == n
    ensures forall t :: t in qs[n].table <==> share && 0 <= t < n && !qs[n].reqs[t].hdr.flag.ref && |qs[n].reqs[t].sel| > 8
  {
    hide Next, Stored;
    RunStored(cfg, share, calls, qs, n);
    StoredFacts(cfg, share, qs[n], Writes(calls[..n]));
  }

  lemma NothingStored(cfg: bool, share: bool, calls: seq<Call>)
    ensures Stored(cfg, share, EMPTY, Writes(calls[..0]))
  {
  }

  lemma NextStored(cfg: bool, share: bool, calls: seq<Call>, i: nat, q: Queue, q': Queue)
    requires i < |calls| && Next(cfg, share, calls, i, q, q') && Stored(cfg, share, q, Writes(calls[..i]))
    ensures Stored(cfg, share, q', Writes(calls[..i + 1]))
  {
    hide Admissible, Stored, Enqueue;
    EnqueueKeeps(cfg, share, q, Writes(calls[..i]), calls[i].write, calls[i].hit);
    assert Writes(calls[..i + 1]) == Writes(calls[..i]) + [calls[i].write];
  }

  /** The entries tell of the writes, in order: dataset, size of data, blocks and their data offsets. */
  ghost predicate Tell(es: seq<Entry>, ws: seq<Write>)
  {
    |es| == |ws| && forall i :: 0 <= i < |es| ==>
      es[i].hdr.did == ws[i].did && es[i].hdr.fsize == |ws[i].data| &&
      es[i].sels == WithOffsets(ws[i].dset.esize, 0, ws[i].blocks)
  }

  /** A queue's section of a buffer is parsed into entries that tell of its writes. */
  lemma SectionRoundTrip(cfg: bool, share: bool, dsets: seq<Dset>, q: Queue, ws: seq<Write>,
      buf: seq<byte>, base: nat, end: nat, cache: Cache) returns (cache': Cache)
    requires Stored(cfg, share, q, ws) && Typed(dsets, ws) && end >= base + q.mdsize
    requires (forall i :: 0 <= i < |q.reqs| ==> ReqFits(q.reqs[i])) && At(buf, base, Section(q.reqs))
    ensures |Section(q.reqs)| == q.mdsize && |q.reqs| == |ws| && Tell(AllExpected(q, ws, 0), ws)
    ensures ParseList(share, dsets, buf, base, end, cache) ==
            Append(AllExpected(q, ws, 0), ParseList(share, dsets, buf, base + q.mdsize, end, cache'))
  {
    hide Stored, Chain, Tell, AllExpected, Append, ReqFits, ParseList, At, Typed, Section, Cached;
    StoredSection(cfg, share, q, ws);
    StoredTells(cfg, share, q, ws);
    NothingCached(cfg, q, ws, base, cache);
    cache' := ParseFrom(cfg, share, dsets, q, ws, 0, buf, base, end, cache);
  }

  lemma NothingCached(cfg: bool, q: Queue, ws: seq<Write>, base: nat, cache: Cache)
    requires |q.reqs| == |ws|
    ensures Cached(cfg, q, ws, base, 0, cache)
  {
  }

  /** Metadata round trip: after any sequence of writes, wherever the bytes of the queued entries end up in a
      buffer and whatever was parsed before them, the reader gets every write back in program order. */
  lemma StreamRoundTrip(cfg: bool, share: bool, calls: seq<Call>, qs: seq<Queue>, q: Queue, dsets: seq<Dset>,
      before: seq<byte>, after: seq<byte>, cache: Cache) returns (es: seq<Entry>, cache': Cache)
    requires Run(cfg, share, calls, qs) && q == qs[|calls|] && Typed(dsets, Writes(calls))
    ensures (forall i :: 0 <= i < |q.reqs| ==> ReqFits(q.reqs[i])) && |Section(q.reqs)| == q.mdsize
    ensures Tell(es, Writes(calls))
    ensures var buf := before + Section(q.reqs) + after;
            ParseList(share, dsets, buf, |before|, |buf|, cache) ==
            Append(es, ParseList(share, dsets, buf, |before| + q.mdsize, |buf|, cache'))
  {
    hide Stored, Tell, ReqFits, ParseList, Next, AllExpected, Typed, At, Section;
    RunStored(cfg, share, calls, qs, |calls|);
    assert calls[..|calls|] == calls;
    StoredSection(cfg, share, q, Writes(calls));
    AtConcat(before, Section(q.reqs), after);
    cache' := SectionRoundTrip(cfg, share, dsets, q, Writes(calls), before + Section(q.reqs) + after, |before|,
                               |before + Section(q.reqs) + after|, cache);
    es := AllExpected(q, Writes(calls), 0);
  }

  lemma StoredSection(cfg: bool, share: bool, q: Queue, ws: seq<Write>)
    requires Stored(cfg, share, q, ws)
    ensures |q.reqs| == |ws| && (forall i :: 0 <= i < |q.reqs| ==> ReqFits(q.reqs[i])) && |Section(q.reqs)| == q.mdsize && Offset(q, 0) == 0
  {
    hide Recorded, ReqFits;
    assert q.reqs[..|q.reqs|] == q.reqs;
    SectionLen(q, |q.reqs|);
  }

  lemma StoredTells(cfg: bool, share: bool, q: Queue, ws: seq<Write>)
    requires Stored(cfg, share, q, ws)
    ensures |q.reqs| == |ws| && Tell(AllExpected(q, ws, 0), ws)
  {
    hide WriteOk, IsReference, Equal, HdrFits, EntryTail;
    forall i | 0 <= i < |ws| ensures q.reqs[i].hdr.did == ws[i].did && q.reqs[i].hdr.fsize == |ws[i].data|
    {
      assert Recorded(cfg, share, q, ws, i);
    }
  }

  /** Without step encoding the guard of deduplication is a matter of element sizes only. */
  lemma PlainHitsAreFaithful(a: Write, b: Write)
    requires WriteOk(false, a) && WriteOk(false, b) && MayEqual(NewReq(false, a, 0, 0), NewReq(false, b, 0, 0))
    ensures Faithful(false, a, b) <==> |a.blocks| == 1 || a.dset.esize == b.dset.esize
  {
    hide WriteOk, NewReq, MayEqual;
    ShapeForced(false, a, b);
  }
}
