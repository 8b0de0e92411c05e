/** Search of the list index: every intersection of a request's blocks with the blocks of the entries. */
module IndexSearch {
  import opened Grid
  import opened Bytes
  import opened MetaCodec
  import opened EntryCodec
  import opened IndexList
  import opened RequestBuffer

  /** An intersection: where it lies in the block of the log entry (dstart of dsize), in the block of the
      request (mstart of msize), its size, and the offsets of both blocks - `foff + doff` in the file, `soff`
      in the request's buffer. */
  datatype Isect = Isect(foff: int, fsize: int, doff: nat, dstart: Coord, dsize: Coord, mstart: Coord, msize: Coord, count: Coord, soff: nat)

  function Max(a: nat, b: nat): nat { if a < b then b else a }

  function Min(a: nat, b: nat): nat { if a < b then a else b }

  predicate MeetAt(a: Block, b: Block, k: nat)
    requires |a.start| == |a.count| == |b.start| == |b.count| && k < |a.start|
  {
    Max(a.start[k], b.start[k]) < Min(a.start[k] + a.count[k], b.start[k] + b.count[k])
  }

  predicate Meets(a: Block, b: Block)
    requires |a.start| == |a.count| == |b.start| == |b.count|
  {
    forall k :: 0 <= k < |a.start| ==> MeetAt(a, b, k)
  }

  function CommonCount(a: Block, b: Block, k: nat): (c: nat)
    requires |a.start| == |a.count| == |b.start| == |b.count| && k < |a.start| && Meets(a, b)
    ensures c > 0 && Max(a.start[k], b.start[k]) + c == Min(a.start[k] + a.count[k], b.start[k] + b.count[k])
  {
    assert MeetAt(a, b, k);
    Min(a.start[k] + a.count[k], b.start[k] + b.count[k]) - Max(a.start[k], b.start[k])
  }

  /** The common part of two blocks that meet. */
  function Common(a: Block, b: Block): (c: Block)
    requires |a.start| == |a.count| == |b.start| == |b.count| && Meets(a, b)
    ensures |c.start| == |c.count| == |a.start|
    ensures forall k :: 0 <= k < |a.start| ==>
      a.start[k] <= c.start[k] && b.start[k] <= c.start[k] && c.count[k] > 0 &&
      c.start[k] + c.count[k] <= a.start[k] + a.count[k] && c.start[k] + c.count[k] <= b.start[k] + b.count[k]
  {
    Block(seq(|a.start|, k requires 0 <= k < |a.start| => Max(a.start[k], b.start[k])),
          seq(|a.start|, k requires 0 <= k < |a.start| => CommonCount(a, b, k)))
  }

  /** The common part contains exactly the coordinates of both. */
  lemma CommonIsIntersection(a: Block, b: Block, x: Coord)
    requires |a.start| == |a.count| == |b.start| == |b.count|
    ensures InBox(x, a) && InBox(x, b) <==> Meets(a, b) && InBox(x, Common(a, b))
  {
    if InBox(x, a) && InBox(x, b) {
      forall k | 0 <= k < |a.start| ensures MeetAt(a, b, k)
      {
        assert a.start[k] <= x[k] < a.start[k] + a.count[k] && b.start[k] <= x[k] < b.start[k] + b.count[k];
      }
    }
  }

  /** The loop of `intersect`. */
  method Intersect(a: Block, b: Block) returns (ok: bool, so: Coord, co: Coord)
    requires |a.start| == |a.count| == |b.start| == |b.count|
    ensures ok == Meets(a, b) && (ok ==> Block(so, co) == Common(a, b))
  {
    so, co, ok := [], [], true;
    var i := 0;
    while i < |a.start|
      invariant 0 <= i <= |a.start| && |so| == |co| == i
      invariant forall k :: 0 <= k < i ==> MeetAt(a, b, k) && so[k] == Max(a.start[k], b.start[k])
      invariant forall k :: 0 <= k < i ==> so[k] + co[k] == Min(a.start[k] + a.count[k], b.start[k] + b.count[k])
    {
      var s, e := Max(a.start[i], b.start[i]), Min(a.start[i] + a.count[i], b.start[i] + b.count[i]);
      if e <= s {
        assert !MeetAt(a, b, i);
        return false, so, co;
      }
      so, co, i := so + [s], co + [e - s], i + 1;
    }
    assert so == Common(a, b).start && co == Common(a, b).count;
  }

  predicate RankedSels(n: nat, sels: seq<Sel>)
  {
    forall i :: 0 <= i < |sels| ==> |sels[i].start| == |sels[i].count| == n
  }

  predicate Ranked(n: nat, es: seq<Entry>)
  {
    forall i :: 0 <= i < |es| ==> RankedSels(n, es[i].sels)
  }

  function SelBlock(s: Sel): Block { Block(s.start, s.count) }

  function MakeIsect(h: Hdr, s: Sel, b: Block, soff: nat, c: Block): Isect
    requires |s.start| == |s.count| == |b.start| == |b.count| == |c.start|
    requires forall k :: 0 <= k < |c.start| ==> s.start[k] <= c.start[k] && b.start[k] <= c.start[k]
  {
    Isect(h.foff, h.fsize, s.doff, Sub(c.start, s.start), s.count, Sub(c.start, b.start), b.count, c.count, soff)
  }

  /** The intersection of an entry's block with a request's block, if they meet. */
  function Hit(h: Hdr, s: Sel, b: Block, soff: nat): (r: seq<Isect>)
    requires |s.start| == |s.count| == |b.start| == |b.count|
  {
    if Meets(SelBlock(s), b) then [MakeIsect(h, s, b, soff, Common(SelBlock(s), b))] else []
  }

  function EntryHits(h: Hdr, sels: seq<Sel>, b: Block, soff: nat): (r: seq<Isect>)
    requires |b.start| == |b.count| && RankedSels(|b.start|, sels)
    decreases |sels|
  {
    if sels == [] then [] else Hit(h, sels[0], b, soff) + EntryHits(h, sels[1..], b, soff)
  }

  function BlockHits(es: seq<Entry>, b: Block, soff: nat): (r: seq<Isect>)
    requires |b.start| == |b.count| && Ranked(|b.start|, es)
    decreases |es|
  {
    if es == [] then [] else EntryHits(es[0].hdr, es[0].sels, b, soff) + BlockHits(es[1..], b, soff)
  }

  /** All intersections, request block by request block, entry by entry, entry block by entry block. */
  function SearchList(n: nat, esize: nat, es: seq<Entry>, bs: seq<Block>, soff: nat): (r: seq<Isect>)
    requires Rank(n, bs) && Ranked(n, es)
    decreases |bs|
  {
    if bs == [] then [] else
      BlockHits(es, bs[0], soff) + SearchList(n, esize, es, bs[1..], soff + Prod(bs[0].count) * esize)
  }

  /** The entries of one dataset, in the order in which they were parsed. */
  function OfDataset(es: seq<Entry>, did: int): (r: seq<Entry>)
    decreases |es|
  {
    if es == [] then [] else (if es[0].hdr.did == did then [es[0]] else []) + OfDataset(es[1..], did)
  }

  lemma {:induction false} OfDatasetConcat(a: seq<Entry>, b: seq<Entry>, did: int)
    ensures OfDataset(a + b, did) == OfDataset(a, did) + OfDataset(b, did)
    decreases |a|
  {
    if a == [] {
      assert a + b == b;
    } else {
      OfDatasetConcat(a[1..], b, did);
      assert (a + b)[1..] == a[1..] + b && (a + b)[0] == a[0];
      var h := if a[0].hdr.did == did then [a[0]] else [];
      assert OfDataset(a + b, did) == h + (OfDataset(a[1..], did) + OfDataset(b, did));
    }
  }

  lemma {:induction false} EntryHitsSnoc(h: Hdr, sels: seq<Sel>, b: Block, soff: nat, k: nat)
    requires |b.start| == |b.count| && RankedSels(|b.start|, sels) && k < |sels|
    ensures EntryHits(h, sels[..k + 1], b, soff) == EntryHits(h, sels[..k], b, soff) + Hit(h, sels[k], b, soff)
    decreases k
  {
    hide Hit;
    if k == 0 {
      assert sels[..1][1..] == [] && sels[..0] == [];
    } else {
      EntryHitsSnoc(h, sels[1..], b, soff, k - 1);
      assert sels[..k + 1][1..] == sels[1..][..k] && sels[..k][1..] == sels[1..][..k - 1];
      ConcatAssoc(Hit(h, sels[0], b, soff), EntryHits(h, sels[1..][..k - 1], b, soff), Hit(h, sels[k], b, soff));
    }
  }

  lemma {:induction false} BlockHitsSnoc(es: seq<Entry>, b: Block, soff: nat, k: nat)
    requires |b.start| == |b.count| && Ranked(|b.start|, es) && k < |es|
    ensures BlockHits(es[..k + 1], b, soff) == BlockHits(es[..k], b, soff) + EntryHits(es[k].hdr, es[k].sels, b, soff)
    decreases k
  {
    if k == 0 {
      assert es[..1][1..] == [] && es[..0] == [];
    } else {
      BlockHitsSnoc(es[1..], b, soff, k - 1);
      assert es[..k + 1][1..] == es[1..][..k] && es[..k][1..] == es[1..][..k - 1];
    }
  }

  // ----- the index object -----

  class ListIndex {
    const dsets: seq<Dset>
    const share: bool
    var idxs: seq<seq<Entry>>

    constructor (dsets: seq<Dset>, share: bool)
      ensures this.dsets == dsets && this.share == share && |idxs| == |dsets|
      ensures forall d :: 0 <= d < |idxs| ==> idxs[d] == []
    {
      this.dsets, this.share, idxs := dsets, share, seq(|dsets|, i => []);
    }

    method Clear()
      modifies this
      ensures |idxs| == old(|idxs|) && forall d :: 0 <= d < |idxs| ==> idxs[d] == []
    {
      idxs := seq(|idxs|, i => []);
    }

    method Insert(e: Entry)
      requires 0 <= e.hdr.did < |idxs|
      modifies this
      ensures idxs == old(idxs)[e.hdr.did := old(idxs)[e.hdr.did] + [e]]
    {
      idxs := idxs[e.hdr.did := idxs[e.hdr.did] + [e]];
    }

    /** Parses a block of metadata into the index. On success every dataset's list grows by its entries of the
        block, in order. */
    method ParseBlock(buf: seq<byte>, ghost es: seq<Entry>) returns (ok: bool)
      requires |idxs| == |dsets|
      modifies this
      ensures ok == ParseList(share, dsets, buf, 0, |buf|, map[]).Some?
      ensures |idxs| == old(|idxs|)
      ensures ParseList(share, dsets, buf, 0, |buf|, map[]) == Some(es) ==> Grown(old(idxs), idxs, es)
    {
      hide ParseList, Step, Append, Push, OfDataset, Grown;
      var p: nat := 0;
      var cache: Cache := map[];
      ghost var done: seq<Entry> := [];
      ghost var all := ParseList(share, dsets, buf, 0, |buf|, map[]);
      ghost var rest := all;
      AppendNone(all);
      NothingInserted(idxs);
      while p < |buf|
        invariant |idxs| == |dsets| == old(|idxs|) && rest == ParseList(share, dsets, buf, p, |buf|, cache) && all == Append(done, rest)
        invariant Grown(old(idxs), idxs, done)
        decreases |buf| - p
      {
        Unfold(share, dsets, buf, p, cache);
        var e := ParseStep(buf, p, cache);
        if e.None? {
          NoneAppended(done);
          return false;
        }
        ghost var c := Remember(share, p, e.value, cache);
        rest := ParseList(share, dsets, buf, p + e.value.hdr.metaSize, |buf|, c);
        AppendPush(done, e.value, rest);
        GrowMore(old(idxs), idxs, done, e.value);
        Insert(e.value);
        done := done + [e.value];
        if !IsRef(share, e.value.hdr) { cache := cache[p := e.value.sels]; }
        p := p + e.value.hdr.metaSize;
      }
      Unfold(share, dsets, buf, p, cache);
      AllParsed(done);
      ok := true;
    }

    method ParseStep(buf: seq<byte>, p: nat, cache: Cache) returns (e: Option<Entry>)
      ensures e == Step(share, dsets, buf, p, cache)
    {
      if p + HDRSIZE > |buf| { return None; }
      var hdr := GetHdr(buf, p);
      if !(0 <= hdr.did < |dsets|) { return None; }
      if share && hdr.flag.ref {
        e := RefDecode(buf, p, cache);
      } else {
        e := ReadEntry(dsets[hdr.did], buf, p);
      }
    }

    /** The search loops. */
    method Search(did: nat, bs: seq<Block>) returns (ret: seq<Isect>)
      requires did < |idxs| && did < |dsets| && Rank(|dsets[did].dims|, bs) && Ranked(|dsets[did].dims|, idxs[did])
      ensures ret == SearchList(|dsets[did].dims|, dsets[did].esize, idxs[did], bs, 0)
    {
      hide BlockHits, SearchList, Ranked, RankedSels, Prod;
      ret := [];
      var soff: nat := 0;
      var i := 0;
      ghost var n, esize := |dsets[did].dims|, dsets[did].esize;
      ghost var all := SearchList(n, esize, idxs[did], bs, 0);
      assert bs[0..] == bs;
      while i < |bs|
        invariant 0 <= i <= |bs| && all == ret + SearchList(n, esize, idxs[did], bs[i..], soff)
      {
        SearchUnfold(n, esize, idxs[did], bs, i, soff);
        var hits := SearchBlock(idxs[did], bs[i], soff);
        ConcatAssoc(ret, hits, SearchList(n, esize, idxs[did], bs[i + 1..], soff + Prod(bs[i].count) * esize));
        ret := ret + hits;
        var size := BlockBytes(dsets[did].esize, bs[i].count);
        soff := soff + size;
        i := i + 1;
      }
      SearchDone(n, esize, idxs[did], bs, soff);
    }

    static method SearchBlock(es: seq<Entry>, b: Block, soff: nat) returns (ret: seq<Isect>)
      requires |b.start| == |b.count| && Ranked(|b.start|, es)
      ensures ret == BlockHits(es, b, soff)
    {
      ret := [];
      var k := 0;
      while k < |es|
        invariant 0 <= k <= |es| && ret == BlockHits(es[..k], b, soff)
      {
        BlockHitsSnoc(es, b, soff, k);
        var hits := SearchEntry(es[k].hdr, es[k].sels, b, soff);
        ret := ret + hits;
        k := k + 1;
      }
      assert es[..k] == es;
    }

    static method SearchEntry(h: Hdr, sels: seq<Sel>, b: Block, soff: nat) returns (ret: seq<Isect>)
      requires |b.start| == |b.count| && RankedSels(|b.start|, sels)
      ensures ret == EntryHits(h, sels, b, soff)
    {
      ret := [];
      var k := 0;
      while k < |sels|
        invariant 0 <= k <= |sels| && ret == EntryHits(h, sels[..k], b, soff)
      {
        EntryHitsSnoc(h, sels, b, soff, k);
        var ok, os, oc := Intersect(SelBlock(sels[k]), b);
        if ok { ret := ret + [MakeIsect(h, sels[k], b, soff, Block(os, oc))]; }
        k := k + 1;
      }
      assert sels[..k] == sels;
    }
  }

  lemma Unfold(share: bool, dsets: seq<Dset>, buf: seq<byte>, p: nat, cache: Cache)
    ensures p >= |buf| ==> ParseList(share, dsets, buf, p, |buf|, cache) == Some([])
    ensures p < |buf| ==>
      (var e := Step(share, dsets, buf, p, cache);
       ParseList(share, dsets, buf, p, |buf|, cache) ==
         if e.None? then None else
         Push(e.value, ParseList(share, dsets, buf, p + e.value.hdr.metaSize, |buf|, Remember(share, p, e.value, cache))))
  {
    hide Step, Push, Remember;
  }

  /** Every dataset's list grew by its entries among those parsed. */
  ghost predicate Grown(was: seq<seq<Entry>>, idxs: seq<seq<Entry>>, done: seq<Entry>)
  {
    |idxs| == |was| && forall d :: 0 <= d < |idxs| ==> idxs[d] == was[d] + OfDataset(done, d)
  }

  lemma NothingInserted(idxs: seq<seq<Entry>>)
    ensures Grown(idxs, idxs, [])
  {
  }

  lemma GrowMore(was: seq<seq<Entry>>, idxs: seq<seq<Entry>>, done: seq<Entry>, e: Entry)
    requires Grown(was, idxs, done) && 0 <= e.hdr.did < |idxs|
    ensures Grown(was, idxs[e.hdr.did := idxs[e.hdr.did] + [e]], done + [e])
  {
    var now := idxs[e.hdr.did := idxs[e.hdr.did] + [e]];
    forall d | 0 <= d < |now| ensures now[d] == was[d] + OfDataset(done + [e], d)
    {
      OfDatasetConcat(done, [e], d);
      assert [e][1..] == [];
      assert OfDataset([e], d) == if e.hdr.did == d then [e] else [];
    }
  }

  lemma NoneAppended(done: seq<Entry>)
    ensures Append(done, None) == None
  {
  }

  lemma SearchUnfold(n: nat, esize: nat, es: seq<Entry>, bs: seq<Block>, i: nat, soff: nat)
    requires Rank(n, bs) && Ranked(n, es) && i < |bs|
    ensures SearchList(n, esize, es, bs[i..], soff) ==
            BlockHits(es, bs[i], soff) + SearchList(n, esize, es, bs[i + 1..], soff + Prod(bs[i].count) * esize)
  {
    assert bs[i..][1..] == bs[i + 1..];
  }

  lemma SearchDone(n: nat, esize: nat, es: seq<Entry>, bs: seq<Block>, soff: nat)
    requires Rank(n, bs) && Ranked(n, es)
    ensures SearchList(n, esize, es, bs[|bs|..], soff) == []
  {
  }

  lemma AppendNone(r: Option<seq<Entry>>)
    ensures r == Append([], r)
  {
    if r.Some? { assert [] + r.value == r.value; }
  }

  lemma AppendPush(done: seq<Entry>, e: Entry, r: Option<seq<Entry>>)
    ensures Append(done, Push(e, r)) == Append(done + [e], r)
  {
    if r.Some? { assert done + ([e] + r.value) == (done + [e]) + r.value; }
  }

  lemma AllParsed(done: seq<Entry>)
    ensures Append(done, Some([])) == Some(done)
  {
    assert done + [] == done;
  }
}
