/** The compact index: blocks packed as words without the record dimension, references by pointer, data
    offsets computed during the search.  It answers every search as the list index does, on the condition
    that no full reference points to a record entry. */
module IndexCompact {
  import opened Grid
  import opened Bytes
  import opened MetaCodec
  import opened EntryCodec
  import opened IndexList
  import opened IndexSearch
  import opened RequestBuffer

  /** An entry of the index: `rec` is the record number or -1; a reference shares the blocks of its target. */
  datatype CEntry =
    | Own(rec: int, nsel: nat, words: seq<nat>, foff: int, fsize: int)
    | Ref(rec: int, target: CEntry, foff: int, fsize: int)

  type CCache = map<int, CEntry>

  /** Start and count of every block in turn. */
  function Pack(rec: bool, sels: seq<Sel>): (r: seq<nat>)
    requires rec ==> NoScalars(sels)
    decreases |sels|
  {
    if sels == [] then [] else
      (if rec then sels[0].start[1..] + sels[0].count[1..] else sels[0].start + sels[0].count) + Pack(rec, sels[1..])
  }

  /** The index entry made of a decoded entry. */
  function PackEntry(e: Entry): (c: CEntry)
    requires e.sels != [] && (e.hdr.flag.rec ==> NoScalars(e.sels))
  {
    Own(if e.hdr.flag.rec then e.sels[0].start[0] else -1, |e.sels|, Pack(e.hdr.flag.rec, e.sels), e.hdr.foff, e.hdr.fsize)
  }

  /** A reference entry: record number if any, then the relative offset of the target. */
  function RefEntry(buf: seq<byte>, p: nat, cache: CCache): (r: Option<CEntry>)
  {
    if p + HDRSIZE > |buf| then None else
      var h := GetHdr(buf, p);
      var q := p + HDRSIZE;
      if h.metaSize <= 0 || q + (if h.flag.rec then 16 else 8) > |buf| then None else
        var rec := if h.flag.rec then Get64(buf, q) else -1;
        var from := p + Get64(buf, if h.flag.rec then q + 8 else q);
        if from !in cache then None else Some(Ref(rec, cache[from], h.foff, h.fsize))
  }

  function CStep(share: bool, dsets: seq<Dset>, buf: seq<byte>, p: nat, cache: CCache): (r: Option<CEntry>)
    ensures r.Some? ==> p + HDRSIZE <= |buf| && 0 <= GetHdr(buf, p).did < |dsets| && GetHdr(buf, p).metaSize > 0
  {
    if p + HDRSIZE > |buf| || !(0 <= GetHdr(buf, p).did < |dsets|) then None
    else if IsRef(share, GetHdr(buf, p)) then RefEntry(buf, p, cache)
    else
      match DecodeEntry(dsets[GetHdr(buf, p).did], buf, p)
      case None => None
      case Some(e) => if e.sels != [] && (e.hdr.flag.rec ==> NoScalars(e.sels)) then Some(PackEntry(e)) else None
  }

  /** An entry of the index and the dataset in whose list it is. */
  datatype Item = Item(did: int, entry: CEntry)

  function CPush(x: Item, r: Option<seq<Item>>): Option<seq<Item>>
  {
    match r case None => None case Some(t) => Some([x] + t)
  }

  function ParseCompact(share: bool, dsets: seq<Dset>, buf: seq<byte>, p: nat, end: nat, cache: CCache): (r: Option<seq<Item>>)
    decreases end - p
  {
    if p >= end then Some([]) else
      match CStep(share, dsets, buf, p, cache)
      case None => None
      case Some(c) =>
        var h := GetHdr(buf, p);
        CPush(Item(h.did, c), ParseCompact(share, dsets, buf, p + h.metaSize, end, if IsRef(share, h) then cache else cache[p := c]))
  }

  // ----- search -----

  /** One packed block against a block of the request, outside the record dimension if there is one. */
  function CHit(c: CEntry, rec: bool, blk: Block, doff: nat, b: Block, soff: nat): (r: seq<Isect>)
    requires |b.start| == |b.count| && |blk.start| == |blk.count| == (if rec then |b.start| - 1 else |b.start|)
    requires rec ==> b.start != [] && b.start[0] <= c.rec
  {
    var inner := if rec then Tail(b) else b;
    if !Meets(blk, inner) then [] else
      var o := Common(blk, inner);
      var ds, ms := Sub(o.start, blk.start), Sub(o.start, inner.start);
      if rec then
        [Isect(c.foff, c.fsize, doff, [0] + ds, [1] + blk.count, [c.rec - b.start[0]] + ms, b.count, [1] + o.count, soff)]
      else
        [Isect(c.foff, c.fsize, doff, ds, blk.count, ms, b.count, o.count, soff)]
  }

  function Join(h: seq<Isect>, r: Option<seq<Isect>>): Option<seq<Isect>>
  {
    match r case None => None case Some(t) => Some(h + t)
  }

  /** The walk over the packed words; None where it leaves them. */
  function Walk(c: CEntry, esize: nat, rec: bool, words: seq<nat>, nsel: nat, doff: nat, b: Block, soff: nat): (r: Option<seq<Isect>>)
    requires |b.start| == |b.count| && (rec ==> b.start != [] && b.start[0] <= c.rec)
    decreases nsel
  {
    var d := if rec then |b.start| - 1 else |b.start|;
    if nsel == 0 then Some([])
    else if |words| < 2 * d then None
    else
      var blk := Block(words[..d], words[d..2 * d]);
      Join(CHit(c, rec, blk, doff, b, soff),
           Walk(c, esize, rec, words[2 * d..], nsel - 1, doff + Prod(blk.count) * esize, b, soff))
  }

  function Content(c: CEntry): CEntry { if c.Ref? then c.target else c }

  /** All intersections of one index entry; None where the program would leave its buffer (a chain of
      references is not followed). */
  function CEntryHits(c: CEntry, esize: nat, b: Block, soff: nat): (r: Option<seq<Isect>>)
    requires |b.start| == |b.count|
  {
    var t := Content(c);
    if t.Ref? then None
    else if c.rec >= 0 then
      if b.start == [] then None
      else if c.rec < b.start[0] || c.rec - b.start[0] >= b.count[0] then Some([])
      else Walk(c, esize, true, t.words, t.nsel, 0, b, soff)
    else Walk(c, esize, false, t.words, t.nsel, 0, b, soff)
  }

  function JoinAll(a: Option<seq<Isect>>, b: Option<seq<Isect>>): Option<seq<Isect>>
  {
    if a.None? then None else Join(a.value, b)
  }

  function CBlockHits(cs: seq<CEntry>, esize: nat, b: Block, soff: nat): (r: Option<seq<Isect>>)
    requires |b.start| == |b.count|
    decreases |cs|
  {
    if cs == [] then Some([]) else JoinAll(CEntryHits(cs[0], esize, b, soff), CBlockHits(cs[1..], esize, b, soff))
  }

  function SearchCompact(n: nat, esize: nat, cs: seq<CEntry>, bs: seq<Block>, soff: nat): (r: Option<seq<Isect>>)
    requires Rank(n, bs)
    decreases |bs|
  {
    if bs == [] then Some([]) else
      JoinAll(CBlockHits(cs, esize, bs[0], soff), SearchCompact(n, esize, cs, bs[1..], soff + Prod(bs[0].count) * esize))
  }

  // ----- an index entry that stands for a list entry -----

  /** c holds the blocks of e, a dataset's entry of rank n. */
  ghost predicate StandsFor(n: nat, c: CEntry, e: Entry)
  {
    c.foff == e.hdr.foff && c.fsize == e.hdr.fsize && RankedSels(n, e.sels) && Content(c).Own? &&
    Content(c).nsel == |e.sels| && (c.rec >= 0 ==> n > 0) &&
    Content(c).words == Pack(c.rec >= 0, e.sels) &&
    (c.rec >= 0 ==> forall i :: 0 <= i < |e.sels| ==> e.sels[i].start[0] == c.rec && e.sels[i].count[0] == 1)
  }

  /** The data offsets of an entry are those computed with the given element size. */
  ghost predicate OffsetsBy(esize: nat, base: nat, sels: seq<Sel>)
    decreases |sels|
  {
    sels == [] || (sels[0].doff == base && OffsetsBy(esize, base + Prod(sels[0].count) * esize, sels[1..]))
  }

  lemma RecordHit(c: CEntry, h: Hdr, s: Sel, b: Block, soff: nat)
    requires |s.start| == |s.count| == |b.start| == |b.count| > 0 && c.rec == s.start[0] && s.count[0] == 1
    requires c.foff == h.foff && c.fsize == h.fsize
    ensures c.rec < b.start[0] || c.rec - b.start[0] >= b.count[0] ==> Hit(h, s, b, soff) == []
    ensures b.start[0] <= c.rec < b.start[0] + b.count[0] ==>
      CHit(c, true, Block(s.start[1..], s.count[1..]), s.doff, b, soff) == Hit(h, s, b, soff)
  {
    var a := SelBlock(s);
    if c.rec < b.start[0] || c.rec - b.start[0] >= b.count[0] {
      assert !MeetAt(a, b, 0);
    } else {
      assert MeetAt(a, b, 0);
      forall k | 0 <= k < |s.start| - 1 ensures MeetAt(Tail(a), Tail(b), k) <==> MeetAt(a, b, k + 1) {}
      assert Meets(a, b) <==> Meets(Tail(a), Tail(b)) by {
        if Meets(Tail(a), Tail(b)) {
          forall k | 0 <= k < |a.start| ensures MeetAt(a, b, k)
          {
            if k > 0 { assert MeetAt(Tail(a), Tail(b), k - 1); }
          }
        }
        if Meets(a, b) {
          forall k | 0 <= k < |a.start| - 1 ensures MeetAt(Tail(a), Tail(b), k) { assert MeetAt(a, b, k + 1); }
        }
      }
      if Meets(a, b) { RecordCommon(c, s, b); }
    }
  }

  lemma RecordCommon(c: CEntry, s: Sel, b: Block)
    requires |s.start| == |s.count| == |b.start| == |b.count| > 0 && c.rec == s.start[0] && s.count[0] == 1
    requires b.start[0] <= c.rec < b.start[0] + b.count[0]
    requires Meets(SelBlock(s), b) && Meets(Tail(SelBlock(s)), Tail(b))
    ensures var o, i := Common(SelBlock(s), b), Common(Tail(SelBlock(s)), Tail(b));
            o.count == [1] + i.count && Sub(o.start, s.start) == [0] + Sub(i.start, s.start[1..]) &&
            Sub(o.start, b.start) == [c.rec - b.start[0]] + Sub(i.start, b.start[1..]) && s.count == [1] + s.count[1..]
  {
    var a := SelBlock(s);
    var o, i := Common(a, b), Common(Tail(a), Tail(b));
    CommonCons(a, b);
    SubCons(o.start, s.start, i.start);
    SubCons(o.start, b.start, i.start);
  }

  lemma CommonCons(a: Block, b: Block)
    requires |a.start| == |a.count| == |b.start| == |b.count| > 0 && Meets(a, b) && Meets(Tail(a), Tail(b))
    ensures var o, i := Common(a, b), Common(Tail(a), Tail(b));
            o.start == [Max(a.start[0], b.start[0])] + i.start && o.count == [CommonCount(a, b, 0)] + i.count
  {
    hide Meets;
    var o, i := Common(a, b), Common(Tail(a), Tail(b));
    forall k | 0 <= k < |a.start| - 1 ensures o.start[k + 1] == i.start[k] && o.count[k + 1] == i.count[k]
    {
      assert Tail(a).start[k] == a.start[k + 1] && Tail(a).count[k] == a.count[k + 1];
      assert Tail(b).start[k] == b.start[k + 1] && Tail(b).count[k] == b.count[k + 1];
    }
    Cons(o.start, i.start);
    Cons(o.count, i.count);
  }

  lemma Cons(s: seq<nat>, t: seq<nat>)
    requires |s| == |t| + 1 && forall k :: 0 <= k < |t| ==> s[k + 1] == t[k]
    ensures s == [s[0]] + t
  {
  }

  lemma SubCons(x: Coord, y: Coord, t: Coord)
    requires |x| == |y| > 0 && x[1..] == t && forall k :: 0 <= k < |x| ==> y[k] <= x[k]
    ensures (forall k :: 0 <= k < |t| ==> y[1..][k] <= t[k]) && Sub(x, y) == [x[0] - y[0]] + Sub(t, y[1..])
  {
    forall k | 0 <= k < |t| ensures y[1..][k] <= t[k] { assert x[k + 1] == t[k]; }
    Cons(Sub(x, y), Sub(t, y[1..]));
  }

  lemma {:induction false} WalkHits(c: CEntry, esize: nat, rec: bool, words: seq<nat>, h: Hdr, sels: seq<Sel>, doff: nat, b: Block, soff: nat)
    requires |b.start| == |b.count| && RankedSels(|b.start|, sels) && OffsetsBy(esize, doff, sels)
    requires c.foff == h.foff && c.fsize == h.fsize && rec == (c.rec >= 0)
    requires rec ==> b.start != [] && b.start[0] <= c.rec < b.start[0] + b.count[0]
    requires rec ==> forall i :: 0 <= i < |sels| ==> sels[i].start[0] == c.rec && sels[i].count[0] == 1
    requires words == Pack(rec, sels)
    ensures Walk(c, esize, rec, words, |sels|, doff, b, soff) == Some(EntryHits(h, sels, b, soff))
    decreases |sels|
  {
    hide Hit, CHit, MakeIsect, Meets, Pack, Prod;
    if sels != [] {
      var s := sels[0];
      PackHead(rec, sels);
      FirstHit(c, h, s, b, soff);
      if rec { UnitProd(s.count); }
      var d := if rec then |s.start| - 1 else |s.start|;
      WalkHits(c, esize, rec, words[2 * d..], h, sels[1..], doff + Prod(s.count) * esize, b, soff);
    }
  }

  lemma PackHead(rec: bool, sels: seq<Sel>)
    requires sels != [] && |sels[0].start| == |sels[0].count| && (rec ==> NoScalars(sels))
    ensures var s := sels[0];
            var d := if rec then |s.start| - 1 else |s.start|;
            var words := Pack(rec, sels);
            |words| >= 2 * d && words[2 * d..] == Pack(rec, sels[1..]) &&
            Block(words[..d], words[d..2 * d]) == if rec then Block(s.start[1..], s.count[1..]) else SelBlock(s)
  {
  }

  lemma FirstHit(c: CEntry, h: Hdr, s: Sel, b: Block, soff: nat)
    requires |s.start| == |s.count| == |b.start| == |b.count| && c.foff == h.foff && c.fsize == h.fsize
    requires c.rec >= 0 ==> b.start != [] && b.start[0] <= c.rec < b.start[0] + b.count[0] && s.start[0] == c.rec && s.count[0] == 1
    ensures var rec := c.rec >= 0;
            CHit(c, rec, if rec then Block(s.start[1..], s.count[1..]) else SelBlock(s), s.doff, b, soff) == Hit(h, s, b, soff)
  {
    if c.rec >= 0 { RecordHit(c, h, s, b, soff); }
  }

  lemma UnitProd(c: Coord)
    requires c != [] && c[0] == 1
    ensures Prod(c) == Prod(c[1..])
  {
  }

  lemma {:induction false} OutsideRecord(c: CEntry, h: Hdr, sels: seq<Sel>, b: Block, soff: nat)
    requires |b.start| == |b.count| > 0 && RankedSels(|b.start|, sels) && c.foff == h.foff && c.fsize == h.fsize
    requires c.rec < b.start[0] || c.rec - b.start[0] >= b.count[0]
    requires forall i :: 0 <= i < |sels| ==> sels[i].start[0] == c.rec && sels[i].count[0] == 1
    ensures EntryHits(h, sels, b, soff) == []
    decreases |sels|
  {
    if sels != [] {
      RecordHit(c, h, sels[0], b, soff);
      OutsideRecord(c, h, sels[1..], b, soff);
    }
  }

  /** One entry: the packed form yields the intersections of the list form. */
  lemma EntryAgrees(n: nat, esize: nat, c: CEntry, e: Entry, b: Block, soff: nat)
    requires |b.start| == |b.count| == n && StandsFor(n, c, e) && OffsetsBy(esize, 0, e.sels)
    ensures CEntryHits(c, esize, b, soff) == Some(EntryHits(e.hdr, e.sels, b, soff))
  {
    if c.rec >= 0 && (c.rec < b.start[0] || c.rec - b.start[0] >= b.count[0]) {
      OutsideRecord(c, e.hdr, e.sels, b, soff);
    } else {
      WalkHits(c, esize, c.rec >= 0, Content(c).words, e.hdr, e.sels, 0, b, soff);
    }
  }

  // ----- whole searches -----

  ghost predicate Linked(n: nat, esize: nat, c: CEntry, e: Entry)
  {
    StandsFor(n, c, e) && OffsetsBy(esize, 0, e.sels)
  }

  /** A full reference to a record entry: the shared words lack the record dimension, the entry's own record
      number is -1. */
  ghost predicate FullRefToRecord(n: nat, c: CEntry, e: Entry)
  {
    c.Ref? && c.rec == -1 && c.target.Own? && c.target.rec >= 0 && n > 0 && e.sels != [] && RankedSels(n, e.sels) &&
    c.target.nsel == |e.sels| && c.target.words == Pack(true, e.sels)
  }

  lemma {:induction false} PackLen(n: nat, sels: seq<Sel>)
    requires n > 0 && RankedSels(n, sels)
    ensures |Pack(true, sels)| == |sels| * (2 * n - 2)
    decreases |sels|
  {
    if sels != [] {
      PackLen(n, sels[1..]);
      Distribute(|sels| - 1, 1, 2 * n - 2);
    }
  }

  lemma {:induction false} WalkLeaves(c: CEntry, esize: nat, words: seq<nat>, nsel: nat, doff: nat, b: Block, soff: nat)
    requires |b.start| == |b.count| && |words| < nsel * (2 * |b.start|)
    ensures Walk(c, esize, false, words, nsel, doff, b, soff) == None
    decreases nsel
  {
    hide CHit, Prod;
    var d := |b.start|;
    if nsel > 0 && |words| >= 2 * d {
      Distribute(nsel - 1, 1, 2 * d);
      WalkLeaves(c, esize, words[2 * d..], nsel - 1, doff + Prod(words[d..2 * d]) * esize, b, soff);
    }
  }

  /** The search of such an entry runs out of its words, whatever the request. */
  lemma FullRefToRecordFaults(n: nat, esize: nat, c: CEntry, e: Entry, b: Block, soff: nat)
    requires |b.start| == |b.count| == n && FullRefToRecord(n, c, e)
    ensures CEntryHits(c, esize, b, soff) == None
  {
    hide Walk, Pack;
    PackLen(n, e.sels);
    Scale(|e.sels|, 2 * n - 2, 2 * n);
    WalkLeaves(c, esize, c.target.words, c.target.nsel, 0, b, soff);
  }

  ghost predicate Pairing(n: nat, esize: nat, cs: seq<CEntry>, es: seq<Entry>)
  {
    |cs| == |es| && Ranked(n, es) && forall i :: 0 <= i < |es| ==> Linked(n, esize, cs[i], es[i]) || FullRefToRecord(n, cs[i], es[i])
  }

  ghost predicate NoFullRef(n: nat, cs: seq<CEntry>, es: seq<Entry>)
    requires |cs| == |es|
  {
    forall i :: 0 <= i < |es| ==> !FullRefToRecord(n, cs[i], es[i])
  }

  lemma PairingTail(n: nat, esize: nat, cs: seq<CEntry>, es: seq<Entry>)
    requires Pairing(n, esize, cs, es) && es != []
    ensures Pairing(n, esize, cs[1..], es[1..])
    ensures NoFullRef(n, cs, es) <==> !FullRefToRecord(n, cs[0], es[0]) && NoFullRef(n, cs[1..], es[1..])
  {
    hide Linked, FullRefToRecord;
    if !FullRefToRecord(n, cs[0], es[0]) && NoFullRef(n, cs[1..], es[1..]) {
      forall i | 0 <= i < |es| ensures !FullRefToRecord(n, cs[i], es[i])
      {
        if i > 0 { assert !FullRefToRecord(n, cs[1..][i - 1], es[1..][i - 1]); }
      }
    }
    if NoFullRef(n, cs, es) {
      forall i | 0 <= i < |es[1..]| ensures !FullRefToRecord(n, cs[1..][i], es[1..][i])
      {
        assert !FullRefToRecord(n, cs[i + 1], es[i + 1]);
      }
    }
  }

  lemma OneEntry(n: nat, esize: nat, c: CEntry, e: Entry, b: Block, soff: nat)
    requires |b.start| == |b.count| == n && RankedSels(n, e.sels)
    requires Linked(n, esize, c, e) || FullRefToRecord(n, c, e)
    ensures CEntryHits(c, esize, b, soff) == if FullRefToRecord(n, c, e) then None else Some(EntryHits(e.hdr, e.sels, b, soff))
  {
    if FullRefToRecord(n, c, e) {
      FullRefToRecordFaults(n, esize, c, e, b, soff);
    } else {
      EntryAgrees(n, esize, c, e, b, soff);
    }
  }

  lemma {:induction false} BlockAgrees(n: nat, esize: nat, cs: seq<CEntry>, es: seq<Entry>, b: Block, soff: nat)
    requires |b.start| == |b.count| == n && Pairing(n, esize, cs, es)
    ensures CBlockHits(cs, esize, b, soff) == if NoFullRef(n, cs, es) then Some(BlockHits(es, b, soff)) else None
    decreases |es|
  {
    hide Linked, FullRefToRecord, NoFullRef, EntryHits, CEntryHits;
    if es != [] {
      PairingTail(n, esize, cs, es);
      OneEntry(n, esize, cs[0], es[0], b, soff);
      BlockAgrees(n, esize, cs[1..], es[1..], b, soff);
    } else {
      EmptyPairing(n, cs, es);
    }
  }

  lemma EmptyPairing(n: nat, cs: seq<CEntry>, es: seq<Entry>)
    requires |cs| == |es| == 0
    ensures NoFullRef(n, cs, es)
  {
  }

  /** The two searches return the same intersections in the same order, exactly when no full reference points
      to a record entry. */
  lemma {:induction false} SearchesAgree(n: nat, esize: nat, cs: seq<CEntry>, es: seq<Entry>, bs: seq<Block>, soff: nat)
    requires Rank(n, bs) && bs != [] && Pairing(n, esize, cs, es)
    ensures SearchCompact(n, esize, cs, bs, soff) == Some(SearchList(n, esize, es, bs, soff)) <==> NoFullRef(n, cs, es)
    ensures !NoFullRef(n, cs, es) ==> SearchCompact(n, esize, cs, bs, soff) == None
    decreases |bs|
  {
    hide Linked, FullRefToRecord, NoFullRef, BlockHits, CBlockHits, Prod;
    BlockAgrees(n, esize, cs, es, bs[0], soff);
    if |bs| > 1 { SearchesAgree(n, esize, cs, es, bs[1..], soff + Prod(bs[0].count) * esize); }
  }

  // ----- parsing in lockstep -----

  /** Kind of an entry recorded in full: whether it is a record entry, and of which dataset. */
  datatype Kind = Kind(rec: bool, did: nat)

  /** The guard on the references of a stream: each refers to an earlier entry of a dataset of the same rank,
      and for several blocks of the same element size; a record reference refers to a record entry. For each
      reference `recs` tells whether its target is a record entry. */
  ghost predicate LinksOk(share: bool, dsets: seq<Dset>, buf: seq<byte>, p: nat, end: nat, cache: Cache, kinds: map<int, Kind>, recs: seq<bool>)
    decreases end - p
  {
    p < end && Step(share, dsets, buf, p, cache).Some? ==>
      (var e := Step(share, dsets, buf, p, cache).value;
       var next := if IsRef(share, e.hdr) then kinds else kinds[p := Kind(e.hdr.flag.rec, e.hdr.did)];
       recs != [] && (IsRef(share, e.hdr) ==> LinkOk(dsets, buf, p, e, kinds, recs[0])) &&
       LinksOk(share, dsets, buf, p + e.hdr.metaSize, end, Remember(share, p, e, cache), next, recs[1..]))
  }

  function Target(buf: seq<byte>, p: nat, rec: bool): int
  {
    if p + HDRSIZE + (if rec then 16 else 8) > |buf| then -1 else p + Get64(buf, if rec then p + HDRSIZE + 8 else p + HDRSIZE)
  }

  ghost predicate LinkOk(dsets: seq<Dset>, buf: seq<byte>, p: nat, e: Entry, kinds: map<int, Kind>, rec: bool)
    requires 0 <= e.hdr.did < |dsets|
  {
    var t := Target(buf, p, e.hdr.flag.rec);
    t in kinds && kinds[t].did < |dsets| && |dsets[kinds[t].did].dims| == |dsets[e.hdr.did].dims| && kinds[t].rec == rec &&
    (|e.sels| == 1 || dsets[kinds[t].did].esize == dsets[e.hdr.did].esize) && (e.hdr.flag.rec ==> kinds[t].rec)
  }

  /** What both caches hold for an entry recorded in full. */
  ghost predicate Kept(dsets: seq<Dset>, k: Kind, sels: seq<Sel>, c: CEntry)
  {
    k.did < |dsets| && sels != [] && RankedSels(|dsets[k.did].dims|, sels) && OffsetsBy(dsets[k.did].esize, 0, sels) &&
    c.Own? && c.nsel == |sels| && (k.rec ==> |dsets[k.did].dims| > 0) && c.words == Pack(k.rec, sels) &&
    (if k.rec then c.rec >= 0 && forall i :: 0 <= i < |sels| ==> sels[i].start[0] == c.rec && sels[i].count[0] == 1 else c.rec == -1)
  }

  ghost predicate Caches(dsets: seq<Dset>, kinds: map<int, Kind>, cache: Cache, ccache: CCache)
  {
    forall t :: t in kinds ==> t in cache && t in ccache && Kept(dsets, kinds[t], cache[t], ccache[t])
  }

  lemma {:induction false} WithOffsetsBy(esize: nat, base: nat, bs: seq<Block>)
    ensures OffsetsBy(esize, base, WithOffsets(esize, base, bs))
    ensures forall i :: 0 <= i < |bs| ==> SelBlock(WithOffsets(esize, base, bs)[i]) == bs[i]
    decreases |bs|
  {
    if bs != [] { WithOffsetsBy(esize, base + Prod(bs[0].count) * esize, bs[1..]); }
  }

  lemma {:induction false} TakeRank(ws: seq<nat>, n: nat, d: nat)
    requires n * d <= |ws|
    ensures forall i :: 0 <= i < n ==> |TakeCoords(ws, n, d)[i]| == d
  {
    forall i | 0 <= i < n ensures |TakeCoords(ws, n, d)[i]| == d { TakeAt(ws, n, d, i); }
  }

  lemma TailRank(mul: bool, enc: bool, encdim: nat, buf: seq<byte>, p: nat)
    requires ReadTail(mul, enc, encdim, buf, p).Some?
    ensures ReadTail(mul, enc, encdim, buf, p).value != [] && Rank(encdim, ReadTail(mul, enc, encdim, buf, p).value)
  {
    var nsel := if mul then Get32(buf, p) else 1;
    var ws := GetWords(buf, if mul then p + 4 else p, WordCount(enc, encdim, nsel));
    if !enc {
      CommuteMul(nsel, encdim);
      TakeRank(Naturals(ws)[..encdim * nsel], nsel, encdim);
      TakeRank(Naturals(ws)[encdim * nsel..], nsel, encdim);
    }
  }

  lemma DecodedBlocks(d: Dset, buf: seq<byte>, p: nat, e: Entry) returns (bs: seq<Block>)
    requires DecodeEntry(d, buf, p) == Some(e)
    ensures bs != [] && Rank(|d.dims|, bs) && e.sels == WithOffsets(d.esize, 0, bs) && e.hdr == GetHdr(buf, p)
    ensures e.hdr.flag.rec ==> d.dims != [] && forall i :: 0 <= i < |bs| ==> bs[i].start[0] == bs[0].start[0] && bs[i].count[0] == 1
  {
    hide ReadTail, WithOffsets, Get64, GetHdr;
    var f, q := GetHdr(buf, p).flag, p + HDRSIZE;
    if f.rec {
      TailRank(f.mul, f.enc, |d.dims| - 1, buf, q + 8);
      bs := InRecord(Get64(buf, q), ReadTail(f.mul, f.enc, |d.dims| - 1, buf, q + 8).value);
    } else {
      TailRank(f.mul, f.enc, |d.dims|, buf, q);
      bs := ReadTail(f.mul, f.enc, |d.dims|, buf, q).value;
    }
  }

  lemma DecodedKept(dsets: seq<Dset>, did: nat, buf: seq<byte>, p: nat, e: Entry)
    requires did < |dsets| && DecodeEntry(dsets[did], buf, p) == Some(e)
    ensures e.sels != [] && (e.hdr.flag.rec ==> NoScalars(e.sels))
    ensures Kept(dsets, Kind(e.hdr.flag.rec, did), e.sels, PackEntry(e))
    ensures Linked(|dsets[did].dims|, dsets[did].esize, PackEntry(e), e)
  {
    hide DecodeEntry, Pack, OffsetsBy;
    var bs := DecodedBlocks(dsets[did], buf, p, e);
    WithOffsetsBy(dsets[did].esize, 0, bs);
    forall i | 0 <= i < |e.sels| ensures e.sels[i].start == bs[i].start && e.sels[i].count == bs[i].count
    {
      assert SelBlock(e.sels[i]) == bs[i];
    }
  }

  lemma {:induction false} PackOverwrite(recnum: nat, sels: seq<Sel>)
    requires Recordable(sels)
    ensures NoScalars(Overwrite(recnum, sels)) && Pack(true, Overwrite(recnum, sels)) == Pack(true, sels)
    decreases |sels|
  {
    var o := Overwrite(recnum, sels);
    assert o[0].start[1..] == sels[0].start[1..] && o[0].count[1..] == sels[0].count[1..];
    if |sels| > 1 {
      PackOverwrite(recnum, sels[1..]);
      assert o[1..] == Overwrite(recnum, sels[1..]);
    }
  }

  lemma {:induction false} OverwriteOffsetsBy(esize: nat, base: nat, recnum: nat, sels: seq<Sel>)
    requires Recordable(sels) && OffsetsBy(esize, base, sels) && forall i :: 0 <= i < |sels| ==> sels[i].count[0] == 1
    ensures OffsetsBy(esize, base, Overwrite(recnum, sels))
    decreases |sels|
  {
    var o := Overwrite(recnum, sels);
    assert o[0].count == sels[0].count;
    if |sels| > 1 {
      OverwriteOffsetsBy(esize, base + Prod(sels[0].count) * esize, recnum, sels[1..]);
      assert o[1..] == Overwrite(recnum, sels[1..]);
    }
  }

  lemma OtherSize(e1: nat, e2: nat, sels: seq<Sel>)
    requires OffsetsBy(e1, 0, sels) && (|sels| == 1 || e1 == e2)
    ensures OffsetsBy(e2, 0, sels)
  {
    if |sels| == 1 { assert sels[1..] == []; }
  }

  /** A reference whose target both caches hold. */
  lemma RefLinked(dsets: seq<Dset>, k: Kind, sels: seq<Sel>, t: CEntry, e: Entry, rec: int)
    requires 0 <= e.hdr.did < |dsets| && Kept(dsets, k, sels, t)
    requires |dsets[k.did].dims| == |dsets[e.hdr.did].dims|
    requires |sels| == 1 || dsets[k.did].esize == dsets[e.hdr.did].esize
    requires e.hdr.flag.rec ==> k.rec && rec >= 0 && Recordable(sels) && e.sels == Overwrite(rec, sels)
    requires !e.hdr.flag.rec ==> rec == -1 && e.sels == sels
    ensures var (d, c) := (dsets[e.hdr.did], Ref(rec, t, e.hdr.foff, e.hdr.fsize));
            (Linked(|d.dims|, d.esize, c, e) || FullRefToRecord(|d.dims|, c, e)) &&
            (FullRefToRecord(|d.dims|, c, e) <==> !e.hdr.flag.rec && k.rec)
  {
    hide Pack, OffsetsBy;
    if e.hdr.flag.rec {
      PackOverwrite(rec, sels);
      OverwriteOffsetsBy(dsets[k.did].esize, 0, rec, sels);
      OtherSize(dsets[k.did].esize, dsets[e.hdr.did].esize, e.sels);
    } else {
      OtherSize(dsets[k.did].esize, dsets[e.hdr.did].esize, e.sels);
    }
  }

  /** A reference without record number to a record entry. */
  predicate SameRecordRef(share: bool, e: Entry, rec: bool) { IsRef(share, e.hdr) && !e.hdr.flag.rec && rec }

  ghost predicate ItemFor(share: bool, dsets: seq<Dset>, x: Item, e: Entry, rec: bool)
  {
    x.did == e.hdr.did && 0 <= x.did < |dsets| && RankedSels(|dsets[x.did].dims|, e.sels) &&
    (Linked(|dsets[x.did].dims|, dsets[x.did].esize, x.entry, e) || FullRefToRecord(|dsets[x.did].dims|, x.entry, e)) &&
    (FullRefToRecord(|dsets[x.did].dims|, x.entry, e) <==> SameRecordRef(share, e, rec))
  }

  lemma RefStepAgrees(dsets: seq<Dset>, buf: seq<byte>, p: nat, cache: Cache, kinds: map<int, Kind>, ccache: CCache, e: Entry, isrec: bool)
    requires RefDecode(buf, p, cache) == Some(e) && 0 <= e.hdr.did < |dsets| && IsRef(true, e.hdr)
    requires Caches(dsets, kinds, cache, ccache) && LinkOk(dsets, buf, p, e, kinds, isrec)
    ensures RefEntry(buf, p, ccache).Some? && ItemFor(true, dsets, Item(e.hdr.did, RefEntry(buf, p, ccache).value), e, isrec)
  {
    hide Kept, Pack, OffsetsBy, Linked, FullRefToRecord;
    var t := Target(buf, p, e.hdr.flag.rec);
    assert e.hdr == GetHdr(buf, p) && t in kinds;
    var rec := if e.hdr.flag.rec then Get64(buf, p + HDRSIZE) else -1;
    assert RefEntry(buf, p, ccache) == Some(Ref(rec, ccache[t], e.hdr.foff, e.hdr.fsize));
    RefLinked(dsets, kinds[t], cache[t], ccache[t], e, rec);
    RefRanked(dsets, kinds[t], cache[t], ccache[t], e);
  }

  lemma RefRanked(dsets: seq<Dset>, k: Kind, sels: seq<Sel>, t: CEntry, e: Entry)
    requires 0 <= e.hdr.did < |dsets| && Kept(dsets, k, sels, t) && |dsets[k.did].dims| == |dsets[e.hdr.did].dims|
    requires e.sels == sels || (Recordable(sels) && exists rec: nat :: e.sels == Overwrite(rec, sels))
    ensures RankedSels(|dsets[e.hdr.did].dims|, e.sels)
  {
  }

  lemma StepAgrees(share: bool, dsets: seq<Dset>, buf: seq<byte>, p: nat, cache: Cache, kinds: map<int, Kind>, ccache: CCache, e: Entry, rec: bool)
    requires Step(share, dsets, buf, p, cache) == Some(e) && Caches(dsets, kinds, cache, ccache)
    requires IsRef(share, e.hdr) ==> LinkOk(dsets, buf, p, e, kinds, rec)
    ensures CStep(share, dsets, buf, p, ccache).Some?
    ensures var c := CStep(share, dsets, buf, p, ccache).value;
            ItemFor(share, dsets, Item(e.hdr.did, c), e, rec) &&
            (!IsRef(share, e.hdr) ==> Kept(dsets, Kind(e.hdr.flag.rec, e.hdr.did), e.sels, c))
  {
    hide RefDecode, RefEntry, DecodeEntry, Kept, Linked, Caches, LinkOk, Pack, RankedSels;
    if IsRef(share, e.hdr) {
      RefStepAgrees(dsets, buf, p, cache, kinds, ccache, e, rec);
    } else {
      DecodedKept(dsets, e.hdr.did, buf, p, e);
      DecodedRanked(dsets, e.hdr.did, buf, p, e);
    }
  }

  lemma DecodedRanked(dsets: seq<Dset>, did: nat, buf: seq<byte>, p: nat, e: Entry)
    requires did < |dsets| && DecodeEntry(dsets[did], buf, p) == Some(e)
    ensures RankedSels(|dsets[did].dims|, e.sels)
  {
    DecodedKept(dsets, did, buf, p, e);
  }

  lemma CachesGrow(dsets: seq<Dset>, kinds: map<int, Kind>, cache: Cache, ccache: CCache, p: int, k: Kind, sels: seq<Sel>, c: CEntry)
    requires Caches(dsets, kinds, cache, ccache) && Kept(dsets, k, sels, c)
    ensures Caches(dsets, kinds[p := k], cache[p := sels], ccache[p := c])
  {
    hide Kept;
  }

  lemma LinksHead(share: bool, dsets: seq<Dset>, buf: seq<byte>, p: nat, end: nat, cache: Cache, kinds: map<int, Kind>, recs: seq<bool>, es: seq<Entry>)
    requires p < end && LinksOk(share, dsets, buf, p, end, cache, kinds, recs) && ParseList(share, dsets, buf, p, end, cache) == Some(es)
    ensures es != [] && Step(share, dsets, buf, p, cache) == Some(es[0]) && recs != []
    ensures IsRef(share, es[0].hdr) ==> LinkOk(dsets, buf, p, es[0], kinds, recs[0])
    ensures var (e, next) := (es[0], Remember(share, p, es[0], cache));
            ParseList(share, dsets, buf, p + e.hdr.metaSize, end, next) == Some(es[1..]) &&
            LinksOk(share, dsets, buf, p + e.hdr.metaSize, end, next,
                    if IsRef(share, e.hdr) then kinds else kinds[p := Kind(e.hdr.flag.rec, e.hdr.did)], recs[1..])
  {
    hide Step, LinkOk, Remember;
  }

  /** Parsing the same bytes, the compact index gets an entry for every entry of the list index. */
  lemma {:induction false} ParsesAgree(share: bool, dsets: seq<Dset>, buf: seq<byte>, p: nat, end: nat,
      cache: Cache, kinds: map<int, Kind>, ccache: CCache, recs: seq<bool>, es: seq<Entry>) returns (items: seq<Item>)
    requires ParseList(share, dsets, buf, p, end, cache) == Some(es) && LinksOk(share, dsets, buf, p, end, cache, kinds, recs)
    requires Caches(dsets, kinds, cache, ccache)
    ensures ParseCompact(share, dsets, buf, p, end, ccache) == Some(items) && |items| == |es| <= |recs|
    ensures forall i :: 0 <= i < |es| ==> ItemFor(share, dsets, items[i], es[i], recs[i])
    decreases end - p
  {
    hide Step, CStep, ItemFor, Caches, Kept, LinkOk, LinksOk, ParseList, ParseCompact, Remember;
    if p >= end {
      items := [];
      NothingParsed(share, dsets, buf, p, end, cache);
    } else {
      LinksHead(share, dsets, buf, p, end, cache, kinds, recs, es);
      var e := es[0];
      StepAgrees(share, dsets, buf, p, cache, kinds, ccache, e, recs[0]);
      var c := CStep(share, dsets, buf, p, ccache).value;
      var k := Kind(e.hdr.flag.rec, e.hdr.did);
      if !IsRef(share, e.hdr) { CachesGrow(dsets, kinds, cache, ccache, p, k, e.sels, c); }
      CachesKept(share, p, e, cache);
      var rest := ParsesAgree(share, dsets, buf, p + e.hdr.metaSize, end, Remember(share, p, e, cache),
        if IsRef(share, e.hdr) then kinds else kinds[p := k], if IsRef(share, e.hdr) then ccache else ccache[p := c], recs[1..], es[1..]);
      items := [Item(e.hdr.did, c)] + rest;
      CompactCons(share, dsets, buf, p, end, ccache, e, c, rest);
      ItemsCons(share, dsets, Item(e.hdr.did, c), rest, es, recs);
    }
  }

  lemma CompactCons(share: bool, dsets: seq<Dset>, buf: seq<byte>, p: nat, end: nat, ccache: CCache, e: Entry, c: CEntry, rest: seq<Item>)
    requires p < end && CStep(share, dsets, buf, p, ccache) == Some(c) && e.hdr == GetHdr(buf, p)
    requires ParseCompact(share, dsets, buf, p + e.hdr.metaSize, end, if IsRef(share, e.hdr) then ccache else ccache[p := c]) == Some(rest)
    ensures ParseCompact(share, dsets, buf, p, end, ccache) == Some([Item(e.hdr.did, c)] + rest)
  {
    hide CStep, GetHdr;
  }

  lemma ItemsCons(share: bool, dsets: seq<Dset>, x: Item, rest: seq<Item>, es: seq<Entry>, recs: seq<bool>)
    requires |rest| + 1 == |es| <= |recs| && ItemFor(share, dsets, x, es[0], recs[0])
    requires forall i :: 0 <= i < |rest| ==> ItemFor(share, dsets, rest[i], es[1..][i], recs[1..][i])
    ensures forall i :: 0 <= i < |es| ==> ItemFor(share, dsets, ([x] + rest)[i], es[i], recs[i])
  {
    hide ItemFor;
    forall i | 0 <= i < |es| ensures ItemFor(share, dsets, ([x] + rest)[i], es[i], recs[i])
    {
      if i > 0 { assert ItemFor(share, dsets, rest[i - 1], es[1..][i - 1], recs[1..][i - 1]); }
    }
  }

  lemma NothingParsed(share: bool, dsets: seq<Dset>, buf: seq<byte>, p: nat, end: nat, cache: Cache)
    requires p >= end
    ensures ParseList(share, dsets, buf, p, end, cache) == Some([]) && forall ccache :: ParseCompact(share, dsets, buf, p, end, ccache) == Some([])
  {
  }

  lemma CachesKept(share: bool, p: nat, e: Entry, cache: Cache)
    ensures Remember(share, p, e, cache) == if IsRef(share, e.hdr) then cache else cache[p := e.sels]
  {
  }

  // ----- the two indexes -----

  function OfDid(items: seq<Item>, did: int): (r: seq<CEntry>)
    decreases |items|
  {
    if items == [] then [] else (if items[0].did == did then [items[0].entry] else []) + OfDid(items[1..], did)
  }

  /** No entry of the dataset is a reference without record number to a record entry. */
  ghost predicate NoSameRecordRef(share: bool, es: seq<Entry>, recs: seq<bool>, did: int)
    requires |es| <= |recs|
  {
    forall i :: 0 <= i < |es| && es[i].hdr.did == did ==> !SameRecordRef(share, es[i], recs[i])
  }

  lemma NoRefTail(share: bool, es: seq<Entry>, recs: seq<bool>, did: int)
    requires 0 < |es| <= |recs|
    ensures NoSameRecordRef(share, es, recs, did) <==>
            (es[0].hdr.did == did ==> !SameRecordRef(share, es[0], recs[0])) && NoSameRecordRef(share, es[1..], recs[1..], did)
  {
    hide SameRecordRef;
    var t, u := es[1..], recs[1..];
    if NoSameRecordRef(share, es, recs, did) {
      forall i | 0 <= i < |t| && t[i].hdr.did == did ensures !SameRecordRef(share, t[i], u[i]) { assert es[i + 1] == t[i]; }
    }
    if (es[0].hdr.did == did ==> !SameRecordRef(share, es[0], recs[0])) && NoSameRecordRef(share, t, u, did) {
      forall i | 0 <= i < |es| && es[i].hdr.did == did ensures !SameRecordRef(share, es[i], recs[i])
      {
        if i > 0 { assert t[i - 1] == es[i] && u[i - 1] == recs[i]; }
      }
    }
  }

  lemma {:induction false} DatasetPairing(share: bool, dsets: seq<Dset>, items: seq<Item>, es: seq<Entry>, recs: seq<bool>, did: nat)
    requires did < |dsets| && |items| == |es| <= |recs| && forall i :: 0 <= i < |es| ==> ItemFor(share, dsets, items[i], es[i], recs[i])
    ensures Pairing(|dsets[did].dims|, dsets[did].esize, OfDid(items, did), OfDataset(es, did))
    ensures NoFullRef(|dsets[did].dims|, OfDid(items, did), OfDataset(es, did)) <==> NoSameRecordRef(share, es, recs, did)
    decreases |es|
  {
    hide Linked, FullRefToRecord, NoFullRef, NoSameRecordRef, SameRecordRef, Pairing;
    var n := |dsets[did].dims|;
    if es != [] {
      DatasetPairing(share, dsets, items[1..], es[1..], recs[1..], did);
      NoRefTail(share, es, recs, did);
      assert ItemFor(share, dsets, items[0], es[0], recs[0]);
      if es[0].hdr.did == did {
        PairingCons(n, dsets[did].esize, items[0].entry, es[0], OfDid(items[1..], did), OfDataset(es[1..], did));
      } else {
        assert [] + OfDid(items[1..], did) == OfDid(items[1..], did);
        assert [] + OfDataset(es[1..], did) == OfDataset(es[1..], did);
      }
    } else {
      NothingPaired(share, n, dsets[did].esize, recs, did);
    }
  }

  lemma NothingPaired(share: bool, n: nat, esize: nat, recs: seq<bool>, did: int)
    ensures Pairing(n, esize, [], []) && NoFullRef(n, [], []) && NoSameRecordRef(share, [], recs, did)
  {
  }

  lemma PairingCons(n: nat, esize: nat, c: CEntry, e: Entry, cs: seq<CEntry>, es: seq<Entry>)
    requires Pairing(n, esize, cs, es) && RankedSels(n, e.sels) && (Linked(n, esize, c, e) || FullRefToRecord(n, c, e))
    ensures Pairing(n, esize, [c] + cs, [e] + es)
    ensures NoFullRef(n, [c] + cs, [e] + es) <==> !FullRefToRecord(n, c, e) && NoFullRef(n, cs, es)
  {
    hide Linked, FullRefToRecord, RankedSels;
    assert ([c] + cs)[1..] == cs && ([e] + es)[1..] == es;
    PairingTail(n, esize, [c] + cs, [e] + es);
  }

  /** Refinement: whatever bytes were parsed, both indexes answer every search of every dataset alike, exactly
      when no entry of the dataset is a reference without record number to a record entry. */
  lemma IndexesAgree(share: bool, dsets: seq<Dset>, buf: seq<byte>, es: seq<Entry>, recs: seq<bool>, did: nat, bs: seq<Block>)
      returns (items: seq<Item>)
    requires ParseList(share, dsets, buf, 0, |buf|, map[]) == Some(es) && LinksOk(share, dsets, buf, 0, |buf|, map[], map[], recs)
    requires did < |dsets| && Rank(|dsets[did].dims|, bs) && bs != []
    ensures ParseCompact(share, dsets, buf, 0, |buf|, map[]) == Some(items) && |items| == |es| <= |recs|
    ensures var (n, esize, le, ce) := (|dsets[did].dims|, dsets[did].esize, OfDataset(es, did), OfDid(items, did));
            Ranked(n, le) && |ce| == |le| && (NoFullRef(n, ce, le) <==> NoSameRecordRef(share, es, recs, did)) &&
            (SearchCompact(n, esize, ce, bs, 0) == Some(SearchList(n, esize, le, bs, 0)) <==> NoFullRef(n, ce, le)) &&
            (!NoFullRef(n, ce, le) ==> SearchCompact(n, esize, ce, bs, 0) == None)
    ensures forall i :: 0 <= i < |es| ==> ItemFor(share, dsets, items[i], es[i], recs[i])
  {
    hide ParseList, ParseCompact, LinksOk, ItemFor, NoFullRef, NoSameRecordRef, SearchCompact, SearchList, OfDataset, OfDid;
    NoCaches(dsets);
    items := ParsesAgree(share, dsets, buf, 0, |buf|, map[], map[], map[], recs, es);
    DatasetPairing(share, dsets, items, es, recs, did);
    SearchesAgree(|dsets[did].dims|, dsets[did].esize, OfDid(items, did), OfDataset(es, did), bs, 0);
  }

  lemma NoCaches(dsets: seq<Dset>)
    ensures Caches(dsets, map[], map[], map[])
  {
  }

  // ----- the index object -----

  class CompactIndex {
    const dsets: seq<Dset>
    const share: bool
    var idxs: seq<seq<CEntry>>

    constructor (dsets: seq<Dset>, share: bool)
      ensures this.dsets == dsets && this.share == share && |idxs| == |dsets|
      ensures forall d :: 0 <= d < |idxs| ==> idxs[d] == []
    {
      this.dsets, this.share, idxs := dsets, share, seq(|dsets|, i => []);
    }

    /** Parses a block of metadata into the index. */
    method ParseBlock(buf: seq<byte>, ghost items: seq<Item>) returns (ok: bool)
      requires |idxs| == |dsets|
      modifies this
      ensures ok == ParseCompact(share, dsets, buf, 0, |buf|, map[]).Some? && |idxs| == old(|idxs|)
      ensures ParseCompact(share, dsets, buf, 0, |buf|, map[]) == Some(items) ==> CGrown(old(idxs), idxs, items)
    {
      hide ParseCompact, CStep, CAppend, CPush, OfDid, CGrown;
      var p: nat := 0;
      var bcache: CCache := map[];
      ghost var done: seq<Item> := [];
      ghost var all := ParseCompact(share, dsets, buf, 0, |buf|, map[]);
      ghost var rest := all;
      CNothing(idxs, all);
      while p < |buf|
        invariant |idxs| == |dsets| == old(|idxs|) && rest == ParseCompact(share, dsets, buf, p, |buf|, bcache) && all == CAppend(done, rest)
        invariant CGrown(old(idxs), idxs, done)
        decreases |buf| - p
      {
        CUnfold(share, dsets, buf, p, bcache);
        var centry := ParseStep(buf, p, bcache);
        if centry.None? {
          CNone(done);
          return false;
        }
        var hdr := GetHdr(buf, p);
        if !IsRef(share, hdr) { bcache := bcache[p := centry.value]; }
        rest := ParseCompact(share, dsets, buf, p + hdr.metaSize, |buf|, bcache);
        CMore(old(idxs), idxs, done, Item(hdr.did, centry.value), rest);
        idxs := idxs[hdr.did := idxs[hdr.did] + [centry.value]];
        done := done + [Item(hdr.did, centry.value)];
        p := p + hdr.metaSize;
      }
      CUnfold(share, dsets, buf, p, bcache);
      CDone(done);
      ok := true;
    }

    method ParseStep(buf: seq<byte>, p: nat, bcache: CCache) returns (c: Option<CEntry>)
      ensures c == CStep(share, dsets, buf, p, bcache)
    {
      hide Pack;
      if p + HDRSIZE > |buf| { return None; }
      var hdr := GetHdr(buf, p);
      if !(0 <= hdr.did < |dsets|) { return None; }
      if share && hdr.flag.ref {
        c := RefEntry(buf, p, bcache);
      } else {
        var e := ReadEntry(dsets[hdr.did], buf, p);
        if e.None? || e.value.sels == [] || (e.value.hdr.flag.rec && !NoScalars(e.value.sels)) { return None; }
        c := Some(PackEntry(e.value));
      }
    }

    /** The search loops; `ok` is false if a walk left its words. */
    method Search(did: nat, bs: seq<Block>) returns (ret: seq<Isect>, ok: bool)
      requires did < |idxs| && did < |dsets| && Rank(|dsets[did].dims|, bs)
      ensures SearchCompact(|dsets[did].dims|, dsets[did].esize, idxs[did], bs, 0) == if ok then Some(ret) else None
    {
      hide CEntryHits, CBlockHits, SearchCompact, JoinAll, Prod;
      ret, ok := [], true;
      var soff: nat := 0;
      var i := 0;
      ghost var n, esize := |dsets[did].dims|, dsets[did].esize;
      ghost var all := SearchCompact(n, esize, idxs[did], bs, 0);
      assert bs[0..] == bs;
      JoinNothing(all);
      while i < |bs|
        invariant 0 <= i <= |bs| && all == JoinAll(Some(ret), SearchCompact(n, esize, idxs[did], bs[i..], soff))
      {
        CSearchUnfold(n, esize, idxs[did], bs, i, soff);
        var hits, good := SearchBlock(dsets[did].esize, idxs[did], bs[i], soff);
        JoinMore(ret, if good then Some(hits) else None, SearchCompact(n, esize, idxs[did], bs[i + 1..], soff + Prod(bs[i].count) * esize));
        if !good { return ret, false; }
        ret := ret + hits;
        var size := BlockBytes(dsets[did].esize, bs[i].count);
        soff := soff + size;
        i := i + 1;
      }
      CSearchDone(n, esize, idxs[did], bs, soff);
      JoinEnd(ret);
    }

    static method SearchBlock(esize: nat, cs: seq<CEntry>, b: Block, soff: nat) returns (ret: seq<Isect>, ok: bool)
      requires |b.start| == |b.count|
      ensures CBlockHits(cs, esize, b, soff) == if ok then Some(ret) else None
    {
      hide CEntryHits, JoinAll, CBlockHits;
      ret, ok := [], true;
      var k := 0;
      ghost var all := CBlockHits(cs, esize, b, soff);
      assert cs[0..] == cs;
      JoinNothing(all);
      while k < |cs|
        invariant 0 <= k <= |cs| && all == JoinAll(Some(ret), CBlockHits(cs[k..], esize, b, soff))
      {
        CBlockUnfold(cs, esize, b, soff, k);
        var hits, good := SearchEntry(esize, cs[k], b, soff);
        JoinMore(ret, if good then Some(hits) else None, CBlockHits(cs[k + 1..], esize, b, soff));
        if !good { return ret, false; }
        ret := ret + hits;
        k := k + 1;
      }
      CBlockDone(cs, esize, b, soff);
      JoinEnd(ret);
    }

    static method SearchEntry(esize: nat, c: CEntry, b: Block, soff: nat) returns (ret: seq<Isect>, ok: bool)
      requires |b.start| == |b.count|
      ensures CEntryHits(c, esize, b, soff) == if ok then Some(ret) else None
    {
      hide Walk, CHit;
      var t := if c.Ref? then c.target else c;
      if t.Ref? { return [], false; }
      if c.rec >= 0 {
        if |b.start| == 0 { return [], false; }
        if c.rec - b.start[0] < 0 || c.rec - b.start[0] >= b.count[0] { return [], true; }
        ret, ok := WalkBlocks(c, esize, true, t.words, t.nsel, b, soff);
      } else {
        ret, ok := WalkBlocks(c, esize, false, t.words, t.nsel, b, soff);
      }
    }

    /** The walk over the packed words with moving start and count, accumulating the data offset. */
    static method WalkBlocks(c: CEntry, esize: nat, rec: bool, words: seq<nat>, nsel: nat, b: Block, soff: nat) returns (ret: seq<Isect>, ok: bool)
      requires |b.start| == |b.count| && (rec ==> b.start != [] && b.start[0] <= c.rec)
      ensures Walk(c, esize, rec, words, nsel, 0, b, soff) == if ok then Some(ret) else None
    {
      hide Walk, CHit, JoinAll, Prod;
      ret, ok := [], true;
      var at: nat, left: nat, doff: nat := 0, nsel, 0;
      var d := if rec then |b.start| - 1 else |b.start|;
      ghost var all := Walk(c, esize, rec, words, nsel, 0, b, soff);
      assert words[0..] == words;
      JoinNothing(all);
      while left > 0
        invariant 0 <= at <= |words| && left <= nsel
        invariant all == JoinAll(Some(ret), Walk(c, esize, rec, words[at..], left, doff, b, soff))
      {
        WalkUnfold(c, esize, rec, words[at..], left, doff, b, soff);
        if |words| - at < 2 * d {
          JoinMore(ret, None, None);
          return ret, false;
        }
        var start, count := words[at..][..d], words[at..][d..2 * d];
        var hits := HitBlock(c, rec, Block(start, count), doff, b, soff);
        var bsize := BlockBytes(esize, count);
        assert words[at..][2 * d..] == words[at + 2 * d..];
        JoinMore(ret, Some(hits), Walk(c, esize, rec, words[at + 2 * d..], left - 1, doff + bsize, b, soff));
        ret := ret + hits;
        at, left, doff := at + 2 * d, left - 1, doff + bsize;
      }
      WalkUnfold(c, esize, rec, words[at..], left, doff, b, soff);
      JoinEnd(ret);
    }

    static method HitBlock(c: CEntry, rec: bool, blk: Block, doff: nat, b: Block, soff: nat) returns (r: seq<Isect>)
      requires |b.start| == |b.count| && |blk.start| == |blk.count| == (if rec then |b.start| - 1 else |b.start|)
      requires rec ==> b.start != [] && b.start[0] <= c.rec
      ensures r == CHit(c, rec, blk, doff, b, soff)
    {
      var inner := if rec then Tail(b) else b;
      var ok, os, oc := Intersect(blk, inner);
      if !ok { return []; }
      var dstart, mstart := Sub(os, blk.start), Sub(os, inner.start);
      if rec {
        r := [Isect(c.foff, c.fsize, doff, [0] + dstart, [1] + blk.count, [c.rec - b.start[0]] + mstart, b.count, [1] + oc, soff)];
      } else {
        r := [Isect(c.foff, c.fsize, doff, dstart, blk.count, mstart, b.count, oc, soff)];
      }
    }
  }

  lemma CSearchUnfold(n: nat, esize: nat, cs: seq<CEntry>, bs: seq<Block>, i: nat, soff: nat)
    requires Rank(n, bs) && i < |bs|
    ensures SearchCompact(n, esize, cs, bs[i..], soff) ==
            JoinAll(CBlockHits(cs, esize, bs[i], soff), SearchCompact(n, esize, cs, bs[i + 1..], soff + Prod(bs[i].count) * esize))
  {
    assert bs[i..][1..] == bs[i + 1..];
  }

  lemma CSearchDone(n: nat, esize: nat, cs: seq<CEntry>, bs: seq<Block>, soff: nat)
    requires Rank(n, bs)
    ensures SearchCompact(n, esize, cs, bs[|bs|..], soff) == Some([])
  {
  }

  lemma CBlockUnfold(cs: seq<CEntry>, esize: nat, b: Block, soff: nat, k: nat)
    requires |b.start| == |b.count| && k < |cs|
    ensures CBlockHits(cs[k..], esize, b, soff) == JoinAll(CEntryHits(cs[k], esize, b, soff), CBlockHits(cs[k + 1..], esize, b, soff))
  {
    assert cs[k..][1..] == cs[k + 1..];
  }

  lemma CBlockDone(cs: seq<CEntry>, esize: nat, b: Block, soff: nat)
    requires |b.start| == |b.count|
    ensures CBlockHits(cs[|cs|..], esize, b, soff) == Some([])
  {
  }

  lemma WalkUnfold(c: CEntry, esize: nat, rec: bool, words: seq<nat>, nsel: nat, doff: nat, b: Block, soff: nat)
    requires |b.start| == |b.count| && (rec ==> b.start != [] && b.start[0] <= c.rec)
    ensures var d := if rec then |b.start| - 1 else |b.start|;
            Walk(c, esize, rec, words, nsel, doff, b, soff) ==
              if nsel == 0 then Some([])
              else if |words| < 2 * d then None
              else JoinAll(Some(CHit(c, rec, Block(words[..d], words[d..2 * d]), doff, b, soff)),
                           Walk(c, esize, rec, words[2 * d..], nsel - 1, doff + Prod(words[d..2 * d]) * esize, b, soff))
  {
    hide CHit, Prod;
  }

  lemma JoinNothing(r: Option<seq<Isect>>)
    ensures JoinAll(Some([]), r) == r
  {
    if r.Some? { assert [] + r.value == r.value; }
  }

  lemma JoinMore(ret: seq<Isect>, h: Option<seq<Isect>>, r: Option<seq<Isect>>)
    ensures JoinAll(Some(ret), JoinAll(h, r)) == if h.None? then None else JoinAll(Some(ret + h.value), r)
    ensures JoinAll(Some(ret), None) == None
  {
    if h.Some? && r.Some? { assert ret + (h.value + r.value) == ret + h.value + r.value; }
  }

  lemma JoinEnd(ret: seq<Isect>)
    ensures JoinAll(Some(ret), Some([])) == Some(ret)
  {
    assert ret + [] == ret;
  }

  function CAppend(done: seq<Item>, r: Option<seq<Item>>): Option<seq<Item>>
  {
    match r case None => None case Some(t) => Some(done + t)
  }

  ghost predicate CGrown(was: seq<seq<CEntry>>, idxs: seq<seq<CEntry>>, done: seq<Item>)
  {
    |idxs| == |was| && forall d :: 0 <= d < |idxs| ==> idxs[d] == was[d] + OfDid(done, d)
  }

  lemma CNothing(idxs: seq<seq<CEntry>>, r: Option<seq<Item>>)
    ensures CGrown(idxs, idxs, []) && CAppend([], r) == r
  {
    if r.Some? { assert [] + r.value == r.value; }
  }

  lemma CNone(done: seq<Item>)
    ensures CAppend(done, None) == None
  {
  }

  lemma CDone(done: seq<Item>)
    ensures CAppend(done, Some([])) == Some(done)
  {
    assert done + [] == done;
  }

  lemma CUnfold(share: bool, dsets: seq<Dset>, buf: seq<byte>, p: nat, cache: CCache)
    ensures p >= |buf| ==> ParseCompact(share, dsets, buf, p, |buf|, cache) == Some([])
    ensures p < |buf| ==>
      (var c := CStep(share, dsets, buf, p, cache);
       ParseCompact(share, dsets, buf, p, |buf|, cache) ==
         if c.None? then None else
         var h := GetHdr(buf, p);
         CPush(Item(h.did, c.value),
               ParseCompact(share, dsets, buf, p + h.metaSize, |buf|, if IsRef(share, h) then cache else cache[p := c.value])))
  {
    hide CStep, CPush;
  }

  lemma {:induction false} OfDidSnoc(done: seq<Item>, x: Item, d: int)
    ensures OfDid(done + [x], d) == OfDid(done, d) + if x.did == d then [x.entry] else []
    decreases |done|
  {
    if done == [] {
      assert [x][1..] == [] && [] + [x] == [x];
    } else {
      OfDidSnoc(done[1..], x, d);
      assert (done + [x])[1..] == done[1..] + [x] && (done + [x])[0] == done[0];
      ConcatAssoc(if done[0].did == d then [done[0].entry] else [], OfDid(done[1..], d), if x.did == d then [x.entry] else []);
    }
  }

  lemma CMore(was: seq<seq<CEntry>>, idxs: seq<seq<CEntry>>, done: seq<Item>, x: Item, r: Option<seq<Item>>)
    requires CGrown(was, idxs, done) && 0 <= x.did < |idxs|
    ensures CGrown(was, idxs[x.did := idxs[x.did] + [x.entry]], done + [x])
    ensures CAppend(done, CPush(x, r)) == CAppend(done + [x], r)
  {
    if r.Some? { assert done + ([x] + r.value) == (done + [x]) + r.value; }
    var now := idxs[x.did := idxs[x.did] + [x.entry]];
    forall d | 0 <= d < |now| ensures now[d] == was[d] + OfDid(done + [x], d) { OfDidSnoc(done, x, d); }
  }
}
