/** The array a user sees: the last stored write that covers an element decides its bytes.  A read of the log
    returns exactly that. */
module PlainArray {
  import opened Grid
  import opened Bytes
  import opened MetaCodec
  import opened EntryCodec
  import opened Dedup
  import opened Stream
  import opened IndexSearch
  import opened Flush
  import opened Sections
  import opened WriteOrder
  import opened Protocol
  import opened ReadPath
  import opened ReadRequest

  // ----- the array -----

  /** The last block of a selection that contains x. */
  function CoverBlock(bs: seq<Block>, x: Coord): (m: Option<nat>)
    requires Shaped(bs)
    ensures m.Some? ==> m.value < |bs| && InBox(x, bs[m.value])
    decreases |bs|
  {
    if bs == [] then None
    else if InBox(x, bs[|bs| - 1]) then Some(|bs| - 1)
    else CoverBlock(bs[..|bs| - 1], x)
  }

  /** Position in a write's data of byte k of the element at x. */
  function DataIndex(w: Write, m: nat, x: Coord, k: nat): nat
    requires m < |w.blocks| && |w.blocks[m].start| == |w.blocks[m].count| && InBox(x, w.blocks[m])
  {
    SelSize(w.blocks[..m]) * w.dset.esize + Linear(w.blocks[m].count, Sub(x, w.blocks[m].start)) * w.dset.esize + k
  }

  /** The byte a write stores for byte k of the element at x, if it covers x. */
  function WrittenByte(w: Write, x: Coord, k: nat): Option<byte>
    requires Shaped(w.blocks)
  {
    var m := CoverBlock(w.blocks, x);
    if m.None? || DataIndex(w, m.value, x, k) >= |w.data| then None else Some(w.data[DataIndex(w, m.value, x, k)])
  }

  predicate AllShaped(ws: seq<Write>) { forall i :: 0 <= i < |ws| ==> Shaped(ws[i].blocks) }

  /** What an array to which the writes were applied in order holds for byte k of element x of a dataset. */
  function PlainByte(ws: seq<Write>, did: nat, x: Coord, k: nat): Option<byte>
    requires AllShaped(ws)
    decreases |ws|
  {
    if ws == [] then None
    else
      var w := ws[|ws| - 1];
      if w.did == did && CoverBlock(w.blocks, x).Some? then WrittenByte(w, x, k)
      else PlainByte(ws[..|ws| - 1], did, x, k)
  }

  lemma {:induction false} CoverBlockIsLast(bs: seq<Block>, x: Coord, m: nat)
    requires Shaped(bs) && m < |bs| && InBox(x, bs[m])
    ensures CoverBlock(bs, x).Some? && m <= CoverBlock(bs, x).value
    decreases |bs|
  {
    if !InBox(x, bs[|bs| - 1]) { CoverBlockIsLast(bs[..|bs| - 1], x, m); }
  }

  ghost predicate Covering(ws: seq<Write>, i: nat, did: nat, x: Coord)
    requires AllShaped(ws)
  {
    i < |ws| && ws[i].did == did && CoverBlock(ws[i].blocks, x).Some?
  }

  /** The last covering write decides. */
  lemma {:induction false} LastCovering(ws: seq<Write>, did: nat, x: Coord, k: nat) returns (l: int)
    requires AllShaped(ws)
    ensures l == -1 ==> PlainByte(ws, did, x, k) == None && forall i: nat :: !Covering(ws, i, did, x)
    ensures l != -1 ==> 0 <= l && Covering(ws, l, did, x) && PlainByte(ws, did, x, k) == WrittenByte(ws[l], x, k)
    ensures l != -1 ==> forall i: nat :: Covering(ws, i, did, x) ==> i <= l
    decreases |ws|
  {
    hide CoverBlock, WrittenByte;
    if ws == [] {
      l := -1;
    } else if Covering(ws, |ws| - 1, did, x) {
      l := |ws| - 1;
    } else {
      var t := ws[..|ws| - 1];
      l := LastCovering(t, did, x, k);
      forall i: nat | Covering(ws, i, did, x) ensures i < |ws| - 1 && Covering(t, i, did, x) {}
    }
  }

  // ----- the array in terms of the calls -----

  /** Which of the first n calls decides the element at x: the covering one that is behind all other covering
      ones, whether by a flush, by process or by program order. */
  function Decider(cs: seq<Issue>, did: nat, x: Coord, n: nat): (l: Option<nat>)
    requires AllShaped(IssuedWrites(cs)) && n <= |cs|
    ensures l.Some? ==> l.value < n
    decreases n
  {
    if n == 0 then None
    else
      var d := Decider(cs, did, x, n - 1);
      if Covers(cs, n - 1, did, x) && (d.Some? ==> Earlier(cs, d.value, n - 1)) then Some(n - 1) else d
  }

  predicate Covers(cs: seq<Issue>, i: nat, did: nat, x: Coord)
    requires AllShaped(IssuedWrites(cs))
  {
    i < |cs| && cs[i].write.did == did && (assert IssuedWrites(cs)[i] == cs[i].write; CoverBlock(cs[i].write.blocks, x).Some?)
  }

  /** What the array holds for byte k of element x of a dataset. */
  function ArrayByte(cs: seq<Issue>, did: nat, x: Coord, k: nat): Option<byte>
    requires AllShaped(IssuedWrites(cs))
  {
    var d := Decider(cs, did, x, |cs|);
    if d.None? then None else (assert IssuedWrites(cs)[d.value] == cs[d.value].write; WrittenByte(cs[d.value].write, x, k))
  }

  lemma {:induction false} DeciderBehind(cs: seq<Issue>, did: nat, x: Coord, n: nat)
    requires AllShaped(IssuedWrites(cs)) && n <= |cs|
    ensures var d := Decider(cs, did, x, n);
            (d.Some? ==> Covers(cs, d.value, did, x)) &&
            forall i: nat :: i < n && Covers(cs, i, did, x) ==> d.Some? && (i == d.value || Earlier(cs, i, d.value))
    decreases n
  {
    hide Covers, Earlier;
    if n > 0 {
      DeciderBehind(cs, did, x, n - 1);
      var e, d := Decider(cs, did, x, n - 1), Decider(cs, did, x, n);
      forall i: nat | i < n && Covers(cs, i, did, x) ensures d.Some? && (i == d.value || Earlier(cs, i, d.value))
      {
        if e.Some? {
          EarlierTotal(cs, e.value, n - 1);
          if i < n - 1 && d == Some(n - 1) && i != e.value { EarlierTrans(cs, i, e.value, n - 1); }
        }
      }
    }
  }

  /** A call decides an element exactly when it covers it and every other call that does is before it: a later
      call of the same process, or a call after the flush that stored this one, is never overruled by it. */
  lemma DeciderIsLast(cs: seq<Issue>, did: nat, x: Coord, l: nat)
    requires AllShaped(IssuedWrites(cs))
    ensures Decider(cs, did, x, |cs|) == Some(l) <==>
            Covers(cs, l, did, x) && forall i: nat :: Covers(cs, i, did, x) ==> i == l || Earlier(cs, i, l)
  {
    hide Covers, Earlier, Decider;
    DeciderBehind(cs, did, x, |cs|);
    CoversBelow(cs, did, x);
    var d := Decider(cs, did, x, |cs|);
    if Covers(cs, l, did, x) && forall i: nat :: Covers(cs, i, did, x) ==> i == l || Earlier(cs, i, l) {
      assert d.Some?;
      EarlierTotal(cs, l, d.value);
    }
  }

  lemma CoversBelow(cs: seq<Issue>, did: nat, x: Coord)
    requires AllShaped(IssuedWrites(cs))
    ensures forall i: nat :: Covers(cs, i, did, x) ==> i < |cs|
  {
  }

  /** When all calls come from one process, the array is the one to which the writes were applied in the order of
      the calls. */
  lemma OneProcessArray(cs: seq<Issue>, e: nat, did: nat, x: Coord, k: nat)
    requires AllShaped(IssuedWrites(cs)) && Epochs(cs, e) && forall i, j :: 0 <= i < |cs| && 0 <= j < |cs| ==> cs[i].rank == cs[j].rank
    ensures ArrayByte(cs, did, x, k) == PlainByte(IssuedWrites(cs), did, x, k)
  {
    hide Decider, CoverBlock, WrittenByte, PlainByte;
    var l := LastCovering(IssuedWrites(cs), did, x, k);
    forall i: nat | Covers(cs, i, did, x) ensures Covering(IssuedWrites(cs), i, did, x) {}
    if l == -1 {
      DeciderBehind(cs, did, x, |cs|);
    } else {
      forall i: nat | Covers(cs, i, did, x) ensures i == l || Earlier(cs, i, l)
      {
        assert i <= l;
      }
      DeciderIsLast(cs, did, x, l);
    }
  }

  /** With nothing pending, the stored writes in the order of their addresses make up this array. */
  lemma LogIsArray(ranks: seq<Process>, h: Hist, did: nat, x: Coord, k: nat)
    requires Counts(ranks) && Ordered(ranks, h) && AllShaped(WritesOf(h.log)) && AllShaped(IssuedWrites(h.issued))
    requires forall r :: 0 <= r < |ranks| ==> Pending(ranks[r]) == []
    ensures PlainByte(WritesOf(h.log), did, x, k) == ArrayByte(h.issued, did, x, k)
  {
    hide Decider, CoverBlock, WrittenByte, PlainByte, Ordered, Earlier, Pending, Covers;
    var ws, cs := WritesOf(h.log), h.issued;
    var l := LastCovering(ws, did, x, k);
    if l == -1 {
      DeciderBehind(cs, did, x, |cs|);
      if Decider(cs, did, x, |cs|).Some? {
        var t := CoversStored(ranks, h, did, x, Decider(cs, did, x, |cs|).value);
      }
    } else {
      var i := StoredCovers(ranks, h, did, x, l);
      forall j: nat | Covers(cs, j, did, x) ensures j == i || Earlier(cs, j, i)
      {
        var t := CoversStored(ranks, h, did, x, j);
        LogEarlier(ranks, h, t, l);
      }
      DeciderIsLast(cs, did, x, i);
    }
  }

  lemma CoversStored(ranks: seq<Process>, h: Hist, did: nat, x: Coord, i: nat) returns (t: nat)
    requires Counts(ranks) && Ordered(ranks, h) && AllShaped(WritesOf(h.log)) && AllShaped(IssuedWrites(h.issued))
    requires (forall r :: 0 <= r < |ranks| ==> Pending(ranks[r]) == []) && Covers(h.issued, i, did, x)
    ensures Covering(WritesOf(h.log), t, did, x) && t < |h.src| && h.src[t] == i
  {
    hide CoverBlock, Ordered, Pending;
    t := AllStored(ranks, h, i);
  }

  lemma StoredCovers(ranks: seq<Process>, h: Hist, did: nat, x: Coord, t: nat) returns (i: nat)
    requires Counts(ranks) && Ordered(ranks, h) && AllShaped(WritesOf(h.log)) && AllShaped(IssuedWrites(h.issued))
    requires Covering(WritesOf(h.log), t, did, x)
    ensures Covers(h.issued, i, did, x) && t < |h.src| && h.src[t] == i && h.issued[i].write == WritesOf(h.log)[t]
  {
    hide CoverBlock, EachEarlier, Known, PendInOrder, Epochs;
    i := h.src[t];
  }

  lemma LogEarlier(ranks: seq<Process>, h: Hist, t: nat, l: nat)
    requires Counts(ranks) && Ordered(ranks, h) && t < |h.src| && l < |h.src| && t <= l
    ensures h.src[t] == h.src[l] || Earlier(h.issued, h.src[t], h.src[l])
  {
    hide Earlier, Known, PendInOrder, Epochs;
  }

  // ----- entries tell of records -----

  ghost predicate Tells(e: Entry, r: Rec)
  {
    e.hdr.did == r.write.did && e.hdr.foff == r.foff && e.hdr.fsize == |r.write.data| &&
    e.sels == WithOffsets(r.write.dset.esize, 0, r.write.blocks)
  }

  ghost predicate AllTell(es: seq<Entry>, rs: seq<Rec>)
  {
    |es| == |rs| && forall i :: 0 <= i < |es| ==> Tells(es[i], rs[i])
  }

  lemma AllTellConcat(a: seq<Entry>, b: seq<Entry>, r: seq<Rec>, s: seq<Rec>)
    requires AllTell(a, r) && AllTell(b, s)
    ensures AllTell(a + b, r + s)
  {
  }

  lemma SecTells(cfg: bool, share: bool, s: Sec)
    requires SecOk(cfg, share, s)
    ensures AllTell(Entries(s), SecRecs(s))
  {
    hide Stored, WithOffsets;
    StoredTells(cfg, share, s.q, s.writes);
    forall i | 0 <= i < |s.writes| ensures Tells(Entries(s)[i], SecRecs(s)[i])
    {
      assert Entries(s)[i] == Expected(s.q, s.writes, 0 + i);
    }
  }

  lemma {:induction false} SecsTell(cfg: bool, share: bool, secs: seq<Sec>)
    requires SecsOk(cfg, share, secs)
    ensures AllTell(AllEntries(secs), SecsRecs(secs))
    decreases |secs|
  {
    hide SecOk, Entries, SecRecs, Tells;
    if secs != [] {
      SecTells(cfg, share, secs[0]);
      SecsTell(cfg, share, secs[1..]);
      AllTellConcat(Entries(secs[0]), AllEntries(secs[1..]), SecRecs(secs[0]), SecsRecs(secs[1..]));
    }
  }

  /** The entries of the metadata datasets tell of the recorded writes, one by one. */
  lemma {:induction false} EntriesTell(cfg: bool, share: bool, dsets: seq<Dset>, all: seq<seq<Sec>>, mds: seq<seq<byte>>)
    requires MetaHolds(cfg, share, dsets, all, mds)
    ensures AllTell(EntriesOf(all), AllRecs(all))
    decreases |all|
  {
    hide SecsOk, Table, AllTyped, Dataset, AllEntries, SecsRecs, Tells;
    if all != [] {
      assert Stands(cfg, share, dsets, all[0], mds[0]);
      SecsTell(cfg, share, all[0]);
      forall i | 0 <= i < |all[1..]| ensures all[1..][i] != [] && Stands(cfg, share, dsets, all[1..][i], mds[1..][i])
      {
        assert Stands(cfg, share, dsets, all[i + 1], mds[i + 1]);
      }
      EntriesTell(cfg, share, dsets, all[1..], mds[1..]);
      AllTellConcat(AllEntries(all[0]), EntriesOf(all[1..]), SecsRecs(all[0]), AllRecs(all[1..]));
    }
  }

  /** The records of one dataset. */
  function RecsOfDid(rs: seq<Rec>, did: nat): (t: seq<Rec>)
    decreases |rs|
  {
    if rs == [] then [] else (if rs[0].write.did == did then [rs[0]] else []) + RecsOfDid(rs[1..], did)
  }

  lemma {:induction false} DatasetTells(es: seq<Entry>, rs: seq<Rec>, did: nat)
    requires AllTell(es, rs)
    ensures AllTell(OfDataset(es, did), RecsOfDid(rs, did))
    decreases |es|
  {
    hide Tells;
    if es != [] {
      assert Tells(es[0], rs[0]);
      assert forall i :: 0 <= i < |es[1..]| ==> es[1..][i] == es[i + 1] && rs[1..][i] == rs[i + 1];
      DatasetTells(es[1..], rs[1..], did);
      SameDid(es[0], rs[0]);
    }
  }

  lemma SameDid(e: Entry, r: Rec)
    requires Tells(e, r)
    ensures e.hdr.did == r.write.did
  {
  }

  lemma {:induction false} RecsOfDidMembers(rs: seq<Rec>, did: nat)
    ensures multiset(RecsOfDid(rs, did)) <= multiset(rs)
    ensures forall r :: r in RecsOfDid(rs, did) <==> r in rs && r.write.did == did
    decreases |rs|
  {
    if rs != [] {
      RecsOfDidMembers(rs[1..], did);
      assert rs == [rs[0]] + rs[1..];
    }
  }

  // ----- stored writes -----

  /** A stored write is one the entry format could carry, in a dataset of its type. */
  ghost predicate GoodRec(cfg: bool, dsets: seq<Dset>, r: Rec)
  {
    WriteOk(cfg, r.write) && r.write.did < |dsets| && SameType(r.write.dset, dsets[r.write.did])
  }

  lemma StoredWriteOk(cfg: bool, share: bool, q: Queue, ws: seq<Write>, i: nat)
    requires Stored(cfg, share, q, ws) && i < |ws|
    ensures WriteOk(cfg, ws[i])
  {
    hide WriteOk, NewReq, IsReference, MayEqual, Chain;
    assert Recorded(cfg, share, q, ws, i);
  }

  lemma {:induction false} SecsGood(cfg: bool, share: bool, dsets: seq<Dset>, secs: seq<Sec>)
    requires SecsOk(cfg, share, secs) && AllTyped(dsets, secs)
    ensures forall r :: r in SecsRecs(secs) ==> GoodRec(cfg, dsets, r)
    decreases |secs|
  {
    hide Stored, WriteOk;
    if secs != [] {
      SecsGood(cfg, share, dsets, secs[1..]);
      var s := secs[0];
      assert SecOk(cfg, share, s) && Typed(dsets, s.writes);
      forall r | r in SecRecs(s) ensures GoodRec(cfg, dsets, r)
      {
        var i :| 0 <= i < |SecRecs(s)| && SecRecs(s)[i] == r;
        StoredWriteOk(cfg, share, s.q, s.writes, i);
      }
    }
  }

  lemma {:induction false} AllGood(cfg: bool, share: bool, dsets: seq<Dset>, all: seq<seq<Sec>>, mds: seq<seq<byte>>)
    requires MetaHolds(cfg, share, dsets, all, mds)
    ensures forall r :: r in AllRecs(all) ==> GoodRec(cfg, dsets, r)
    decreases |all|
  {
    hide SecsOk, Table, AllTyped, Dataset, SecsRecs, GoodRec;
    if all != [] {
      assert Stands(cfg, share, dsets, all[0], mds[0]);
      SecsGood(cfg, share, dsets, all[0]);
      forall i | 0 <= i < |all[1..]| ensures all[1..][i] != [] && Stands(cfg, share, dsets, all[1..][i], mds[1..][i])
      {
        assert Stands(cfg, share, dsets, all[i + 1], mds[i + 1]);
      }
      AllGood(cfg, share, dsets, all[1..], mds[1..]);
    }
  }

  lemma GoodShape(cfg: bool, dsets: seq<Dset>, r: Rec)
    requires GoodRec(cfg, dsets, r)
    ensures Shaped(r.write.blocks) && Rank(|dsets[r.write.did].dims|, r.write.blocks) && r.write.dset.esize == dsets[r.write.did].esize
    ensures |r.write.data| == SelSize(r.write.blocks) * r.write.dset.esize && r.write.blocks != []
    ensures forall i :: 0 <= i < |r.write.blocks| ==> Positive(r.write.blocks[i].count)
  {
    hide EntryTail, Encodes, BodyFits;
  }

  // ----- extents of permuted records -----

  ghost predicate ExtentsApart(a: Rec, b: Rec) { RecEnd(a) <= b.foff || RecEnd(b) <= a.foff }

  lemma {:induction false} OnceInLog(log: seq<Rec>, r: Rec, i: nat)
    requires (forall i, j :: 0 <= i < j < |log| ==> RecEnd(log[i]) <= log[j].foff) && (forall i :: 0 <= i < |log| ==> |log[i].write.data| > 0)
    requires i < |log| && log[i] == r
    ensures multiset(log)[r] == 1
    decreases |log|
  {
    assert log == [log[0]] + log[1..];
    if i == 0 {
      forall j | 0 <= j < |log[1..]| ensures log[1..][j] != r { assert RecEnd(log[0]) <= log[j + 1].foff; }
      assert r !in log[1..];
    } else {
      assert RecEnd(log[0]) <= log[i].foff;
      OnceInLog(log[1..], r, i - 1);
    }
  }

  lemma TwoPlaces(t: seq<Rec>, j: nat, j': nat)
    requires j < j' < |t| && t[j] == t[j']
    ensures multiset(t)[t[j]] >= 2
  {
    assert t == t[..j] + [t[j]] + t[j + 1..j'] + [t[j']] + t[j' + 1..];
  }

  lemma ApartInLog(log: seq<Rec>, t: seq<Rec>, j: nat, j': nat)
    requires (forall i, j :: 0 <= i < j < |log| ==> RecEnd(log[i]) <= log[j].foff) && (forall i :: 0 <= i < |log| ==> |log[i].write.data| > 0)
    requires multiset(t) <= multiset(log) && j < j' < |t|
    ensures ExtentsApart(t[j], t[j'])
  {
    assert t[j] in multiset(t) && t[j'] in multiset(t);
    assert t[j] in multiset(log) && t[j'] in multiset(log);
    var i :| 0 <= i < |log| && log[i] == t[j];
    var i' :| 0 <= i' < |log| && log[i'] == t[j'];
    if i == i' {
      TwoPlaces(t, j, j');
      OnceInLog(log, t[j], i);
      assert false;
    } else if i < i' {
      assert RecEnd(log[i]) <= log[i'].foff;
    } else {
      assert RecEnd(log[i']) <= log[i].foff;
    }
  }

  // ----- a dataset's entries -----

  /** What is known of the entries es of a dataset of rank n: they tell of the records rs, which are those of
      the dataset among the stored ones. */
  ghost predicate View(n: nat, esize: nat, did: nat, file: seq<byte>, log: seq<Rec>, es: seq<Entry>, rs: seq<Rec>)
  {
    esize > 0 && AllTell(es, rs) && LogOk(file, log) && AllShaped(WritesOf(log)) && (forall i :: 0 <= i < |log| ==> |log[i].write.data| > 0) &&
    multiset(rs) <= multiset(log) && (forall i :: 0 <= i < |log| && log[i].write.did == did ==> log[i] in rs) &&
    forall j :: 0 <= j < |rs| ==> RecFits(n, esize, did, rs[j])
  }

  ghost predicate RecFits(n: nat, esize: nat, did: nat, r: Rec)
  {
    r.write.did == did && Rank(n, r.write.blocks) && r.write.dset.esize == esize && |r.write.data| == SelSize(r.write.blocks) * esize &&
    forall i :: 0 <= i < |r.write.blocks| ==> Positive(r.write.blocks[i].count)
  }

  /** The data of block m of an entry, within the extent of its record. */
  lemma BlockExtent(n: nat, esize: nat, did: nat, e: Entry, r: Rec, m: nat)
    requires Tells(e, r) && RecFits(n, esize, did, r) && m < |e.sels|
    ensures |e.sels| == |r.write.blocks| && SelBlock(e.sels[m]) == r.write.blocks[m]
    ensures e.sels[m].doff == SelSize(r.write.blocks[..m]) * esize
    ensures r.foff <= e.hdr.foff + e.sels[m].doff && e.hdr.foff + e.sels[m].doff + Prod(e.sels[m].count) * esize <= RecEnd(r)
  {
    hide Prod, Rank, Positive;
    var bs := r.write.blocks;
    OffsetsTile(esize, 0, bs, m);
    SizeGrowsTo(bs, m);
    Distribute(SelSize(bs[..m]), Prod(bs[m].count), esize);
    MulMono(SelSize(bs[..m]) + Prod(bs[m].count), SelSize(bs), esize);
  }

  lemma SizeGrowsTo(bs: seq<Block>, m: nat)
    requires m < |bs|
    ensures SelSize(bs[..m]) + Prod(bs[m].count) <= SelSize(bs)
  {
    SizeGrows(bs, m, |bs|);
    assert bs[..|bs|] == bs;
  }

  lemma TwoBlocks(n: nat, esize: nat, did: nat, e: Entry, r: Rec, m: nat, m': nat)
    requires Tells(e, r) && RecFits(n, esize, did, r) && m < m' < |e.sels|
    ensures e.sels[m].doff + Prod(e.sels[m].count) * esize <= e.sels[m'].doff
  {
    hide Prod, Rank, Positive;
    BlockExtent(n, esize, did, e, r, m);
    BlockExtent(n, esize, did, e, r, m');
    var bs := r.write.blocks;
    SizeGrows(bs, m, m');
    Distribute(SelSize(bs[..m]), Prod(bs[m].count), esize);
    MulMono(SelSize(bs[..m]) + Prod(bs[m].count), SelSize(bs[..m']), esize);
  }

  lemma ViewApart(n: nat, esize: nat, did: nat, file: seq<byte>, log: seq<Rec>, es: seq<Entry>, rs: seq<Rec>)
    requires View(n, esize, did, file, log, es, rs)
    ensures DataApart(es, esize)
  {
    hide Prod, Tells, RecFits, Holds;
    forall j: nat, m: nat, j': nat, m': nat | IsSel(es, j, m) && IsSel(es, j', m') && (j != j' || m != m')
      ensures Reaches(es, esize, j, m, j', m') || Reaches(es, esize, j', m', j, m)
    {
      assert Tells(es[j], rs[j]) && RecFits(n, esize, did, rs[j]) && Tells(es[j'], rs[j']) && RecFits(n, esize, did, rs[j']);
      BlockExtent(n, esize, did, es[j], rs[j], m);
      BlockExtent(n, esize, did, es[j'], rs[j'], m');
      if j == j' {
        if m < m' { TwoBlocks(n, esize, did, es[j], rs[j], m, m'); } else { TwoBlocks(n, esize, did, es[j], rs[j], m', m); }
      } else if j < j' {
        ApartInLog(log, rs, j, j');
      } else {
        ApartInLog(log, rs, j', j);
      }
    }
  }

  /** The entries of the index are ones the read path can work with. */
  lemma ViewReadable(n: nat, esize: nat, did: nat, file: seq<byte>, log: seq<Rec>, es: seq<Entry>, rs: seq<Rec>, qs: seq<Block>)
    requires View(n, esize, did, file, log, es, rs) && Rank(n, qs)
    requires forall i, j :: 0 <= i < j < |qs| ==> BoxesApart(qs[i], qs[j])
    ensures Readable(n, esize, es, qs)
  {
    hide Prod, Tells, RecFits, DataApart, BoxesApart, LogOk;
    ViewApart(n, esize, did, file, log, es, rs);
    forall j | 0 <= j < |es| ensures RankedSels(n, es[j].sels)
    {
      assert Tells(es[j], rs[j]) && RecFits(n, esize, did, rs[j]);
      forall m | 0 <= m < |es[j].sels| ensures |es[j].sels[m].start| == |es[j].sels[m].count| == n
      {
        BlockExtent(n, esize, did, es[j], rs[j], m);
        FitRank(n, esize, did, rs[j], m);
      }
    }
    forall j: nat, m: nat | IsSel(es, j, m) ensures Positive(SelAt(es, j, m).count)
    {
      assert Tells(es[j], rs[j]) && RecFits(n, esize, did, rs[j]);
      BlockExtent(n, esize, did, es[j], rs[j], m);
      FitRank(n, esize, did, rs[j], m);
    }
  }

  lemma FitRank(n: nat, esize: nat, did: nat, r: Rec, m: nat)
    requires RecFits(n, esize, did, r) && m < |r.write.blocks|
    ensures |r.write.blocks[m].start| == |r.write.blocks[m].count| == n && Positive(r.write.blocks[m].count)
  {
  }

  // ----- furthest in the file is last in the log -----

  /** A covering entry block comes from a covering write. */
  lemma CoverIsCovering(n: nat, esize: nat, did: nat, file: seq<byte>, log: seq<Rec>, es: seq<Entry>, rs: seq<Rec>, x: Coord, j: nat, m: nat) returns (i: nat)
    requires View(n, esize, did, file, log, es, rs) && CoverAt(es, j, m, x)
    ensures j < |rs| && Tells(es[j], rs[j]) && RecFits(n, esize, did, rs[j])
    ensures i < |log| && log[i] == rs[j] && Covering(WritesOf(log), i, did, x) && m <= CoverBlock(log[i].write.blocks, x).value
  {
    hide Prod, Tells, RecFits, LogOk, CoverBlock;
    assert Tells(es[j], rs[j]) && RecFits(n, esize, did, rs[j]);
    BlockExtent(n, esize, did, es[j], rs[j], m);
    assert rs[j] in multiset(rs);
    assert rs[j] in multiset(log);
    i :| 0 <= i < |log| && log[i] == rs[j];
    assert WritesOf(log)[i] == log[i].write;
    CoverBlockIsLast(log[i].write.blocks, x, m);
    FitDid(n, esize, did, rs[j]);
  }

  lemma FitDid(n: nat, esize: nat, did: nat, r: Rec)
    requires RecFits(n, esize, did, r)
    ensures r.write.did == did && r.write.dset.esize == esize
  {
  }

  /** The last covering write has an entry, and its last covering block is the furthest in the file. */
  lemma LastIsFurthest(n: nat, esize: nat, did: nat, file: seq<byte>, log: seq<Rec>, es: seq<Entry>, rs: seq<Rec>, x: Coord, l: nat)
      returns (j: nat, m: nat)
    requires View(n, esize, did, file, log, es, rs) && Covering(WritesOf(log), l, did, x) && forall i: nat :: Covering(WritesOf(log), i, did, x) ==> i <= l
    ensures Furthest(es, j, m, x) && j < |rs| && rs[j] == log[l] && m == CoverBlock(log[l].write.blocks, x).value
    ensures Tells(es[j], rs[j]) && RecFits(n, esize, did, rs[j])
  {
    hide Prod, Tells, RecFits, Holds, CoverBlock;
    assert log[l] in rs;
    j :| 0 <= j < |rs| && rs[j] == log[l];
    m := CoverBlock(log[l].write.blocks, x).value;
    assert Tells(es[j], rs[j]) && RecFits(n, esize, did, rs[j]);
    SelCount(es[j], rs[j]);
    BlockExtent(n, esize, did, es[j], rs[j], m);
    FitRank(n, esize, did, rs[j], m);
    forall j': nat, m': nat | CoverAt(es, j', m', x) ensures SelBase(es, j', m') <= SelBase(es, j, m)
    {
      var i := CoverIsCovering(n, esize, did, file, log, es, rs, x, j', m');
      BlockExtent(n, esize, did, es[j'], rs[j'], m');
      if i < l {
        assert RecEnd(log[i]) <= log[l].foff;
      } else {
        SameRecordBlocks(n, esize, did, es[j], es[j'], rs[j], m', m);
      }
    }
  }

  lemma SelCount(e: Entry, r: Rec)
    requires Tells(e, r)
    ensures |e.sels| == |r.write.blocks|
  {
  }

  lemma SameRecordBlocks(n: nat, esize: nat, did: nat, e: Entry, e': Entry, r: Rec, m': nat, m: nat)
    requires Tells(e, r) && Tells(e', r) && RecFits(n, esize, did, r) && m' <= m < |e.sels|
    ensures |e'.sels| == |e.sels| && e'.hdr.foff + e'.sels[m'].doff <= e.hdr.foff + e.sels[m].doff
  {
    hide Prod, Rank, Positive;
    if m' < m { TwoBlocks(n, esize, did, e, r, m', m); }
  }

  /** The file holds, where the entry points, the byte that the write stored. */
  lemma FileByte(n: nat, esize: nat, did: nat, file: seq<byte>, e: Entry, r: Rec, m: nat, x: Coord, k: nat)
    requires Tells(e, r) && RecFits(n, esize, did, r) && Holds(file, r) && m < |e.sels| && k < esize
    requires |e.sels[m].start| == |e.sels[m].count| && InBox(x, SelBlock(e.sels[m]))
    ensures m < |r.write.blocks| && r.write.blocks[m] == SelBlock(e.sels[m])
    ensures var a := e.hdr.foff + e.sels[m].doff + Linear(e.sels[m].count, Sub(x, e.sels[m].start)) * esize + k;
            DataIndex(r.write, m, x, k) < |r.write.data| && AsStore(file)(a) == r.write.data[DataIndex(r.write, m, x, k)]
  {
    hide Prod, Linear, WithOffsets;
    BlockExtent(n, esize, did, e, r, m);
    var b := r.write.blocks[m];
    SubInBounds(b, x);
    LinearBound(b.count, Sub(x, b.start));
    var i := Linear(b.count, Sub(x, b.start));
    InBlock(i, Prod(b.count), esize, k);
    var d := DataIndex(r.write, m, x, k);
    assert file[r.foff..RecEnd(r)][d] == r.write.data[d];
  }

  lemma InBlock(i: nat, p: nat, esize: nat, k: nat)
    requires i < p && k < esize
    ensures i * esize + k < p * esize
  {
    MulGap(i, p, esize, k, 0);
  }

  /** Main theorem of the read side: what a read answers is what the array holds after the stored writes, in the
      order in which they were stored; elements never written keep the fill value. */
  lemma ReadIsPlain(n: nat, esize: nat, did: nat, file: seq<byte>, log: seq<Rec>, es: seq<Entry>, rs: seq<Rec>, qs: seq<Block>,
      was: seq<byte>, fill: Option<seq<byte>>, buf: seq<byte>, i: nat, x: Coord, k: nat)
    requires View(n, esize, did, file, log, es, rs) && Rank(n, qs) && i < |qs| && InBoxOk(n, qs[i], x) && k < esize
    requires Answered(n, esize, es, qs, was, file, fill, buf, i, x, k)
    ensures var a := BufferAt(qs, esize, 0, i, x, k);
            0 <= a < |buf| == |was| &&
            buf[a] == match PlainByte(WritesOf(log), did, x, k)
                      case Some(b) => b
                      case None => if fill.Some? && k < |fill.value| then fill.value[k] else was[a]
  {
    hide Prod, Linear, Tells, RecFits, CoverBlock, Furthest, CoverAt, Holds, Soff;
    var l := LastCovering(WritesOf(log), did, x, k);
    if l == -1 {
      forall j: nat, m: nat ensures !CoverAt(es, j, m, x)
      {
        if CoverAt(es, j, m, x) {
          var t := CoverIsCovering(n, esize, did, file, log, es, rs, x, j, m);
          assert false;
        }
      }
    } else {
      var j, m := LastIsFurthest(n, esize, did, file, log, es, rs, x, l);
      FurthestCovers(es, j, m, x);
      CoverShape(es, j, m, x);
      assert Holds(file, log[l]);
      FileByte(n, esize, did, file, es[j], rs[j], m, x, k);
    }
  }

  lemma CoverShape(es: seq<Entry>, j: nat, m: nat, x: Coord)
    requires CoverAt(es, j, m, x)
    ensures IsSel(es, j, m) && |es[j].sels[m].start| == |es[j].sels[m].count| && InBox(x, SelBlock(es[j].sels[m]))
  {
  }

  // ----- the protocol's states give such a view -----

  /** In a state with clean metadata, the entries of a dataset in the metadata datasets are a view of the log. */
  lemma StateView(cfg: bool, share: bool, w: World, h: Hist, did: nat)
    requires Inv(cfg, share, w, h) && !w.dirty && did < |w.dsets| && forall d :: 0 <= d < |w.dsets| ==> w.dsets[d].esize > 0
    ensures View(|w.dsets[did].dims|, w.dsets[did].esize, did, w.file, h.log, OfDataset(EntriesOf(h.all), did), RecsOfDid(AllRecs(h.all), did))
  {
    hide MetaHolds, Tells, LogOk, QueuesOk, Accounted, FlagsOk, OfDataset, EntriesOf, AllRecs, RecsOfDid, GoodRec, RecFits;
    var recs := AllRecs(h.all);
    CleanRecordsAll(cfg, share, w, h);
    EntriesTell(cfg, share, w.dsets, h.all, w.mds);
    DatasetTells(EntriesOf(h.all), recs, did);
    RecsOfDidMembers(recs, did);
    AllGood(cfg, share, w.dsets, h.all, w.mds);
    forall i | 0 <= i < |h.log| ensures Shaped(h.log[i].write.blocks) && |h.log[i].write.data| > 0 && h.log[i] in recs
    {
      assert h.log[i] in multiset(h.log);
      assert h.log[i] in multiset(recs);
      assert GoodRec(cfg, w.dsets, h.log[i]);
      GoodShape(cfg, w.dsets, h.log[i]);
      GoodData(cfg, w.dsets, h.log[i]);
    }
    var rs := RecsOfDid(recs, did);
    forall j | 0 <= j < |rs| ensures RecFits(|w.dsets[did].dims|, w.dsets[did].esize, did, rs[j])
    {
      assert rs[j] in rs;
      assert GoodRec(cfg, w.dsets, rs[j]);
      GoodFits(cfg, w.dsets, did, rs[j]);
    }
  }

  /** Every call's selection is well formed once nothing is pending. */
  lemma IssuedShaped(ranks: seq<Process>, h: Hist)
    requires Counts(ranks) && Ordered(ranks, h) && AllShaped(WritesOf(h.log))
    requires forall r :: 0 <= r < |ranks| ==> Pending(ranks[r]) == []
    ensures AllShaped(IssuedWrites(h.issued))
  {
    hide Ordered, Pending;
    forall i | 0 <= i < |h.issued| ensures Shaped(IssuedWrites(h.issued)[i].blocks)
    {
      var t := AllStored(ranks, h, i);
      assert WritesOf(h.log)[t] == h.log[t].write;
    }
  }

  lemma GoodData(cfg: bool, dsets: seq<Dset>, r: Rec)
    requires GoodRec(cfg, dsets, r) && forall d :: 0 <= d < |dsets| ==> dsets[d].esize > 0
    ensures |r.write.data| > 0
  {
    hide WriteOk;
    GoodShape(cfg, dsets, r);
    ProdPositive(r.write.blocks[0].count);
    Times(SelSize(r.write.blocks), r.write.dset.esize);
  }

  lemma GoodFits(cfg: bool, dsets: seq<Dset>, did: nat, r: Rec)
    requires GoodRec(cfg, dsets, r) && r.write.did == did
    ensures did < |dsets| && RecFits(|dsets[did].dims|, dsets[did].esize, did, r)
  {
    hide WriteOk;
    GoodShape(cfg, dsets, r);
  }
}
