/** A hit of the deduplication, whatever it hits: when the queue still records all writes, and when its bytes are
    read back as the writes. */
module DedupHits {
  import opened Bytes
  import opened MetaCodec
  import opened EntryCodec
  import opened Dedup
  import opened IndexList
  import opened Stream

  /** The write w finds request t. */
  ghost predicate Hits(cfg: bool, q: Queue, ws: seq<Write>, w: Write, t: nat)
  {
    Stored(cfg, true, q, ws) && WriteOk(cfg, w) && Fits64(q.mdsize) && t in q.table && t < |q.reqs| == |ws| && WriteOk(cfg, ws[t]) &&
    MayEqual(NewReq(cfg, w, q.mdsize, 0), q.reqs[t])
  }

  /** The reference that is stored for w. */
  ghost function Replaced(cfg: bool, q: Queue, ws: seq<Write>, w: Write, t: nat): (s: Req)
    requires Hits(cfg, q, ws, w, t)
  {
    HitInRange(cfg, true, q, ws, t);
    Refer(NewReq(cfg, w, q.mdsize, 0), q.reqs[t])
  }

  lemma HitFacts(cfg: bool, q: Queue, ws: seq<Write>, w: Write, t: nat)
    requires Hits(cfg, q, ws, w, t)
    ensures Chain(q) && Plain(cfg, q, ws, t)
    ensures var s := Replaced(cfg, q, ws, w, t);
            ReqFits(s) && s.hdr.metaSize > 0 && s.metaOff == q.mdsize && s.hdr.flag.ref && s.hdr.did == w.did &&
            Fits64(q.reqs[t].metaOff - q.mdsize) && IsReference(cfg, w, ws[t], s, q.reqs[t].metaOff - q.mdsize)
  {
    hide WriteOk, NewReq, Refer, Stored, IsReference, ReqFits, MayEqual, Chain, Fits32;
    StoredFacts(cfg, true, q, ws);
    HitInRange(cfg, true, q, ws, t);
    NewFacts(cfg, w, q.mdsize, 0);
    ReferMakesReference(cfg, w, ws[t], NewReq(cfg, w, q.mdsize, 0), q.reqs[t]);
    ReferKeeps(NewReq(cfg, w, q.mdsize, 0), q.reqs[t]);
    ReferenceFits(cfg, w, ws[t], Replaced(cfg, q, ws, w, t), q.reqs[t].metaOff - q.mdsize);
  }

  /** The comparison does not depend on offsets. */
  lemma Comparable(cfg: bool, a: Write, b: Write, r: Req, t: Req)
    requires WriteOk(cfg, a) && WriteOk(cfg, b) && MayEqual(r, t)
    requires r == NewReq(cfg, a, r.metaOff, r.hdr.foff) && t == NewReq(cfg, b, t.metaOff, t.hdr.foff)
    ensures MayEqual(NewReq(cfg, a, 0, 0), NewReq(cfg, b, 0, 0))
  {
    hide WriteOk, EntryTail;
  }

  lemma HitCompares(cfg: bool, q: Queue, ws: seq<Write>, w: Write, t: nat)
    requires Hits(cfg, q, ws, w, t) && Plain(cfg, q, ws, t)
    ensures MayEqual(NewReq(cfg, w, 0, 0), NewReq(cfg, ws[t], 0, 0))
  {
    hide WriteOk, NewReq, MayEqual, Stored;
    FreshFits(cfg, w, q.mdsize, 0);
    NewFacts(cfg, w, q.mdsize, 0);
    Comparable(cfg, w, ws[t], NewReq(cfg, w, q.mdsize, 0), q.reqs[t]);
  }

  lemma SameWord(x: int, y: int)
    requires Fits64(x) && Fits64(y) && I64(x) == I64(y)
    ensures x == y
  {
    assert At(I64(x), 0, I64(x)) && At(I64(x), 0, I64(y));
    Read64(I64(x), 0, x);
    Read64(I64(x), 0, y);
  }

  /** The target of a reference is the only one it can have. */
  lemma OneTarget(cfg: bool, q: Queue, ws: seq<Write>, w: Write, t: nat, j: nat)
    requires Hits(cfg, q, ws, w, t)
    requires RefersTo(cfg, Queued(q, Replaced(cfg, q, ws, w, t), false), ws + [w], |ws|, j)
    ensures j == t && Faithful(cfg, w, ws[t])
  {
    hide WriteOk, NewReq, Stored, Plain, ReqFits, Chain, MayEqual, Faithful, Refer;
    HitFacts(cfg, q, ws, w, t);
    var s := Replaced(cfg, q, ws, w, t);
    var q' := Queued(q, s, false);
    assert q'.reqs[|ws|] == s && q'.reqs[j] == q.reqs[j] && (ws + [w])[j] == ws[j] && (ws + [w])[|ws|] == w;
    SameWord(q.reqs[j].metaOff - s.metaOff, q.reqs[t].metaOff - s.metaOff);
    if j < t { OffsetsOrdered(q, j, t); }
    if t < j { OffsetsOrdered(q, t, j); }
  }

  /** The queue records all writes exactly if the hit may stand in for the new one. */
  lemma HitStored(cfg: bool, q: Queue, ws: seq<Write>, w: Write, t: nat)
    requires Hits(cfg, q, ws, w, t)
    ensures var s := Replaced(cfg, q, ws, w, t);
            s.hdr.metaSize >= 0 && (Stored(cfg, true, Queued(q, s, false), ws + [w]) <==> Faithful(cfg, w, ws[t]))
  {
    hide WriteOk, NewReq, Stored, RefersTo, ReqFits, Chain, MayEqual, Faithful, Refer;
    HitFacts(cfg, q, ws, w, t);
    var s := Replaced(cfg, q, ws, w, t);
    var q' := Queued(q, s, false);
    if Faithful(cfg, w, ws[t]) {
      HitIsEqual(cfg, q, ws, w, t);
      StoreReference(cfg, q, ws, w, t, s);
    }
    if Stored(cfg, true, q', ws + [w]) {
      LastRecorded(cfg, q', ws + [w]);
      assert q'.reqs[|ws|] == s;
      if Plain(cfg, q', ws + [w], |ws|) { RefIsNotFull(cfg, q', ws + [w], |ws|); }
      var j :| RefersTo(cfg, q', ws + [w], |ws|, j);
      OneTarget(cfg, q, ws, w, t, j);
    }
  }

  lemma LastRecorded(cfg: bool, q: Queue, ws: seq<Write>)
    requires Stored(cfg, true, q, ws) && ws != []
    ensures |q.reqs| == |ws| && Recorded(cfg, true, q, ws, |ws| - 1)
  {
    hide Plain, RefersTo, Chain;
  }

  lemma RefIsNotFull(cfg: bool, q: Queue, ws: seq<Write>, i: nat)
    requires Plain(cfg, q, ws, i)
    ensures !q.reqs[i].hdr.flag.ref
  {
    hide EntryTail;
  }

  // ----- reading -----

  lemma LastEntry(dsets: seq<Dset>, buf: seq<byte>, p: nat, end: nat, cache: Cache, h: Hdr, f: Entry)
    requires p + HDRSIZE <= |buf| && GetHdr(buf, p) == h == f.hdr && h.flag.ref && 0 <= h.did < |dsets| && h.metaSize > 0
    requires p + h.metaSize == end
    ensures ParseList(true, dsets, buf, p, end, cache) == Some([f]) <==> RefDecode(buf, p, cache) == Some(f)
    ensures ParseList(true, dsets, buf, p, end, cache).Some? ==> |ParseList(true, dsets, buf, p, end, cache).value| == 1
  {
    hide RefDecode, DecodeEntry, GetHdr;
    assert Step(true, dsets, buf, p, cache) == RefDecode(buf, p, cache);
    if RefDecode(buf, p, cache).Some? {
      var g := RefDecode(buf, p, cache).value;
      assert ParseList(true, dsets, buf, p, end, cache) == Push(g, ParseList(true, dsets, buf, end, end, Remember(true, p, g, cache)));
      assert [g] + [] == [g] && [f][0] == f && [g][0] == g;
    }
  }

  lemma AppendLast(es: seq<Entry>, f: Entry, r: Option<seq<Entry>>)
    requires r.Some? ==> |r.value| == 1
    ensures Append(es, r) == Some(es + [f]) <==> r == Some([f])
  {
    if r.Some? && es + r.value == es + [f] {
      assert r.value == (es + r.value)[|es|..] == (es + [f])[|es|..] == [f];
    }
  }

  lemma ExpectedSnoc(q: Queue, ws: seq<Write>, s: Req, w: Write, q': Queue)
    requires |q.reqs| == |ws| && q'.reqs == q.reqs + [s]
    ensures AllExpected(q', ws + [w], 0) == AllExpected(q, ws, 0) + [Entry(s.hdr, WithOffsets(w.dset.esize, 0, w.blocks))]
  {
    hide WithOffsets;
    var a, b := AllExpected(q', ws + [w], 0), AllExpected(q, ws, 0);
    forall k | 0 <= k < |ws| ensures a[k] == b[k] {}
    assert a[|ws|] == Expected(q', ws + [w], |ws|);
  }

  /** After any hit, the bytes of the queue are read back as the writes exactly if the hit may stand in for the new
      write: both or neither are record writes, and there is one block or the element sizes agree. */
  lemma HitReads(cfg: bool, q: Queue, ws: seq<Write>, w: Write, t: nat, dsets: seq<Dset>)
    requires Hits(cfg, q, ws, w, t) && Typed(dsets, ws + [w])
    ensures var s := Replaced(cfg, q, ws, w, t);
            s.hdr.metaSize >= 0 &&
            var q' := Queued(q, s, false);
            |q'.reqs| == |ws + [w]| && (forall i :: 0 <= i < |q'.reqs| ==> ReqFits(q'.reqs[i])) && |Section(q'.reqs)| == q'.mdsize &&
            (ParseList(true, dsets, Section(q'.reqs), 0, q'.mdsize, map[]) == Some(AllExpected(q', ws + [w], 0)) <==> Faithful(cfg, w, ws[t]))
  {
    hide WriteOk, NewReq, Stored, Chain, MayEqual, Faithful, IsReference, ReqFits, ReqBytes, Section, RefDecode, ParseList, Typed, At,
         AllExpected, Append, WithOffsets, Cached, GetHdr;
    HitFacts(cfg, q, ws, w, t);
    HitCompares(cfg, q, ws, w, t);
    var s := Replaced(cfg, q, ws, w, t);
    var q' := Queued(q, s, false);
    StoredSection(cfg, true, q, ws);
    SectionSnoc(q, s, q');
    var buf, m := Section(q'.reqs), q.mdsize;
    TypedParts(dsets, ws, w);
    NothingCached(cfg, q, ws, 0, map[]);
    var cache := ParseFrom(cfg, true, dsets, q, ws, 0, buf, 0, q'.mdsize, map[]);
    CachedTarget(cfg, q, ws, t, cache);
    HdrStands(s, buf, m);
    RefRoundTrip(cfg, w, ws[t], s, q.reqs[t].metaOff - m, buf, m, cache);
    var f := Entry(s.hdr, WithOffsets(w.dset.esize, 0, w.blocks));
    LastEntry(dsets, buf, m, q'.mdsize, cache, s.hdr, f);
    AppendLast(AllExpected(q, ws, 0), f, ParseList(true, dsets, buf, m, q'.mdsize, cache));
    ExpectedSnoc(q, ws, s, w, q');
  }

  lemma SectionSnoc(q: Queue, s: Req, q': Queue)
    requires (forall i :: 0 <= i < |q.reqs| ==> ReqFits(q.reqs[i])) && |Section(q.reqs)| == q.mdsize && ReqFits(s) && s.hdr.metaSize >= 0
    requires q'.reqs == q.reqs + [s] && q'.mdsize == q.mdsize + s.hdr.metaSize
    ensures (forall i :: 0 <= i < |q'.reqs| ==> ReqFits(q'.reqs[i])) && |Section(q'.reqs)| == q'.mdsize
    ensures At(Section(q'.reqs), 0, Section(q.reqs)) && At(Section(q'.reqs), q.mdsize, ReqBytes(s))
  {
    hide ReqFits, ReqBytes;
    assert q'.reqs[..|q'.reqs| - 1] == q.reqs;
    assert At(Section(q'.reqs), 0, Section(q'.reqs));
    AtSplit(Section(q'.reqs), 0, Section(q.reqs), ReqBytes(s));
  }

  lemma TypedParts(dsets: seq<Dset>, ws: seq<Write>, w: Write)
    requires Typed(dsets, ws + [w])
    ensures Typed(dsets, ws) && 0 <= w.did < |dsets|
  {
    var all := ws + [w];
    assert all[|ws|] == w;
    forall i | 0 <= i < |ws| ensures ws[i].did < |dsets| && SameType(ws[i].dset, dsets[ws[i].did]) { assert all[i] == ws[i]; }
  }

  lemma CachedTarget(cfg: bool, q: Queue, ws: seq<Write>, t: nat, cache: Cache)
    requires t < |q.reqs| == |ws| && Plain(cfg, q, ws, t) && Cached(cfg, q, ws, 0, |ws|, cache)
    ensures q.reqs[t].metaOff in cache && cache[q.reqs[t].metaOff] == WithOffsets(ws[t].dset.esize, 0, ws[t].blocks)
  {
    hide Plain;
  }
}
