/** The streams that writers produce satisfy the guard under which the two indexes were compared. */
module StreamIndex {
  import opened Grid
  import opened Bytes
  import opened MetaCodec
  import opened EntryCodec
  import opened Dedup
  import opened Stream
  import opened IndexList
  import opened IndexSearch
  import opened IndexCompact
  import opened Sections

  /** A write of a single record. */
  predicate IsRecord(w: Write) { Rank(|w.dset.dims|, w.blocks) && IsRec(w.dset, w.blocks) }

  function Records(ws: seq<Write>): (rs: seq<bool>)
    ensures |rs| == |ws|
  {
    seq(|ws|, i requires 0 <= i < |ws| => IsRecord(ws[i]))
  }

  /** Kinds of the entries recorded in full so far. */
  ghost predicate KindsOf(cfg: bool, q: Queue, ws: seq<Write>, base: nat, i: nat, kinds: map<int, Kind>)
    requires |q.reqs| == |ws|
  {
    forall j :: 0 <= j < i && Plain(cfg, q, ws, j) ==>
      base + Offset(q, j) in kinds && kinds[base + Offset(q, j)] == Kind(IsRec(ws[j].dset, ws[j].blocks), ws[j].did)
  }

  lemma PlainKind(cfg: bool, q: Queue, ws: seq<Write>, i: nat)
    requires Plain(cfg, q, ws, i)
    ensures Rank(|ws[i].dset.dims|, ws[i].blocks) && ws[i].blocks != []
    ensures q.reqs[i].hdr.flag.rec == IsRec(ws[i].dset, ws[i].blocks) && q.reqs[i].hdr.did == ws[i].did
  {
  }

  lemma ReferenceKnown(cfg: bool, q: Queue, ws: seq<Write>, i: nat, j: nat)
    requires RefersTo(cfg, q, ws, i, j)
    ensures j < i < |ws| == |q.reqs| && WriteOk(cfg, ws[i]) && WriteOk(cfg, ws[j]) && ws[j].blocks != []
    ensures IsReference(cfg, ws[i], ws[j], q.reqs[i], q.reqs[j].metaOff - q.reqs[i].metaOff)
  {
    hide NewReq, Plain, MayEqual, Faithful, EntryTail, Encodes, BodyFits, ReqFits;
  }

  lemma ReferenceFacts(cfg: bool, a: Write, b: Write, s: Req, roff: int)
    requires WriteOk(cfg, a) && WriteOk(cfg, b) && IsReference(cfg, a, b, s, roff)
    ensures Rank(|a.dset.dims|, a.blocks) && a.blocks != [] && (s.hdr.flag.rec ==> IsRec(a.dset, a.blocks))
    ensures Fits64(roff) && s.sel == I64(roff) && s.hdr.flag.rec == s.record.Some?
  {
    hide EntryTail, Encodes, BodyFits, ReqFits;
  }

  lemma ReferenceTarget(s: Req, roff: int, buf: seq<byte>, p: nat)
    requires ReqFits(s) && At(buf, p, ReqBytes(s)) && Fits64(roff) && s.sel == I64(roff) && s.hdr.flag.rec == s.record.Some?
    ensures Target(buf, p, s.hdr.flag.rec) == p + roff
  {
    hide HdrFits, At, HdrBytes, I64, Get64, GetHdr;
    var rec := s.record.Some?;
    RefFields(buf, p, s.hdr, rec, if rec then s.record.value else 0, roff);
  }

  lemma TargetOf(cfg: bool, q: Queue, ws: seq<Write>, i: nat, j: nat, buf: seq<byte>, p: nat)
    requires RefersTo(cfg, q, ws, i, j) && ReqFits(q.reqs[i]) && At(buf, p, ReqBytes(q.reqs[i]))
    ensures Rank(|ws[i].dset.dims|, ws[i].blocks) && ws[i].blocks != []
    ensures Target(buf, p, q.reqs[i].hdr.flag.rec) == p + q.reqs[j].metaOff - q.reqs[i].metaOff
    ensures q.reqs[i].hdr.flag.rec ==> IsRec(ws[i].dset, ws[i].blocks)
  {
    hide RefersTo, WriteOk, IsReference, At, ReqFits, ReqBytes, Target, Rank, IsRec;
    ReferenceKnown(cfg, q, ws, i, j);
    var s := q.reqs[i];
    ReferenceFacts(cfg, ws[i], ws[j], s, q.reqs[j].metaOff - s.metaOff);
    ReferenceTarget(s, q.reqs[j].metaOff - s.metaOff, buf, p);
  }

  lemma LinkStands(cfg: bool, dsets: seq<Dset>, q: Queue, ws: seq<Write>, i: nat, j: nat, buf: seq<byte>, base: nat, kinds: map<int, Kind>)
    requires Chain(q) && RefersTo(cfg, q, ws, i, j) && Typed(dsets, ws) && KindsOf(cfg, q, ws, base, i, kinds)
    requires ReqFits(q.reqs[i]) && At(buf, base + Offset(q, i), ReqBytes(q.reqs[i]))
    requires 0 <= q.reqs[i].hdr.did < |dsets|
    ensures LinkOk(dsets, buf, base + Offset(q, i), Expected(q, ws, i), kinds, IsRecord(ws[i]))
  {
    hide WriteOk, NewReq, Plain, IsReference, MayEqual, Target, At, ReqBytes, ReqFits, Chain, WithOffsets;
    TargetOf(cfg, q, ws, i, j, buf, base + Offset(q, i));
    ShapeForced(cfg, ws[i], ws[j]);
  }

  lemma KindsGrow(cfg: bool, q: Queue, ws: seq<Write>, base: nat, i: nat, kinds: map<int, Kind>)
    requires Chain(q) && i < |q.reqs| == |ws| && KindsOf(cfg, q, ws, base, i, kinds) && q.reqs[i].hdr.did >= 0
    ensures KindsOf(cfg, q, ws, base, i + 1, kinds[base + Offset(q, i) := Kind(q.reqs[i].hdr.flag.rec, q.reqs[i].hdr.did)])
    ensures !Plain(cfg, q, ws, i) ==> KindsOf(cfg, q, ws, base, i + 1, kinds)
  {
    hide Plain, Chain;
    if Plain(cfg, q, ws, i) { PlainKind(cfg, q, ws, i); }
    forall j | 0 <= j < i ensures Offset(q, j) < Offset(q, i) { OffsetsOrdered(q, j, i); }
  }

  lemma RefIsNotPlain(cfg: bool, share: bool, q: Queue, ws: seq<Write>, i: nat)
    requires i < |q.reqs| && IsRef(share, q.reqs[i].hdr)
    ensures !Plain(cfg, q, ws, i)
  {
  }

  lemma DidInRange(cfg: bool, share: bool, dsets: seq<Dset>, q: Queue, ws: seq<Write>, i: nat)
    requires Recorded(cfg, share, q, ws, i) && Typed(dsets, ws) && i < |ws|
    ensures i < |q.reqs| && 0 <= q.reqs[i].hdr.did < |dsets|
  {
    hide WriteOk, IsReference, Equal;
    if Plain(cfg, q, ws, i) { PlainKind(cfg, q, ws, i); }
  }

  ghost predicate LinksAfter(share: bool, dsets: seq<Dset>, buf: seq<byte>, p: nat, end: nat, recs: seq<bool>)
  {
    forall cache: Cache, kinds: map<int, Kind> :: LinksOk(share, dsets, buf, p, end, cache, kinds, recs)
  }

  lemma LinksUnfold(share: bool, dsets: seq<Dset>, buf: seq<byte>, p: nat, end: nat, cache: Cache, kinds: map<int, Kind>, e: Entry, rec: bool, recs: seq<bool>)
    requires Step(share, dsets, buf, p, cache) == Some(e)
    requires IsRef(share, e.hdr) ==> LinkOk(dsets, buf, p, e, kinds, rec)
    requires LinksOk(share, dsets, buf, p + e.hdr.metaSize, end, Remember(share, p, e, cache),
                     if IsRef(share, e.hdr) then kinds else kinds[p := Kind(e.hdr.flag.rec, e.hdr.did)], recs)
    ensures LinksOk(share, dsets, buf, p, end, cache, kinds, [rec] + recs)
  {
    hide Step, LinkOk, Remember;
    assert ([rec] + recs)[1..] == recs;
  }

  /** Every reference that a writer records refers to an entry that may stand in for it in both indexes, and to a
      record entry exactly if it is a record write itself; so a stream whose continuation meets the guard meets
      it too. */
  lemma {:induction false} StoredLinks(cfg: bool, share: bool, dsets: seq<Dset>, q: Queue, ws: seq<Write>, i: nat,
      buf: seq<byte>, base: nat, end: nat, cache: Cache, kinds: map<int, Kind>, recs: seq<bool>)
    requires Stored(cfg, share, q, ws) && Typed(dsets, ws) && i <= |ws| && end >= base + q.mdsize
    requires (forall j :: 0 <= j < |ws| ==> ReqFits(q.reqs[j])) && At(buf, base, Section(q.reqs))
    requires Cached(cfg, q, ws, base, i, cache) && KindsOf(cfg, q, ws, base, i, kinds)
    requires LinksAfter(share, dsets, buf, base + q.mdsize, end, recs)
    ensures LinksOk(share, dsets, buf, base + Offset(q, i), end, cache, kinds, Records(ws)[i..] + recs)
    decreases |ws| - i
  {
    hide Chain, Recorded, ReqFits, ReqBytes, Typed, Step, Cached, Expected, KindsOf, LinkOk, LinksOk, Section, At, Plain, RefersTo, Remember, IsRecord;
    if i < |ws| {
      var e, p := Expected(q, ws, i), base + Offset(q, i);
      assert q.reqs[..|ws|] == q.reqs && Recorded(cfg, share, q, ws, i);
      EntryStands(q, |ws|, i, buf, base);
      StoredStep(cfg, share, dsets, q, ws, i, buf, base, cache);
      ExpectedHdr(q, ws, i);
      OffsetStep(q, i);
      DidInRange(cfg, share, dsets, q, ws, i);
      KindsGrow(cfg, q, ws, base, i, kinds);
      if IsRef(share, e.hdr) {
        RefIsNotPlain(cfg, share, q, ws, i);
        LinkOfRef(cfg, share, dsets, q, ws, i, buf, base, kinds);
      }
      var next := if IsRef(share, e.hdr) then kinds else kinds[p := Kind(e.hdr.flag.rec, e.hdr.did)];
      StoredLinks(cfg, share, dsets, q, ws, i + 1, buf, base, end, Remember(share, p, e, cache), next, recs);
      LinksUnfold(share, dsets, buf, p, end, cache, kinds, e, IsRecord(ws[i]), Records(ws)[i + 1..] + recs);
      assert Records(ws)[i..] + recs == [IsRecord(ws[i])] + (Records(ws)[i + 1..] + recs);
    } else {
      assert Records(ws)[i..] + recs == recs;
    }
  }

  lemma LinkOfRef(cfg: bool, share: bool, dsets: seq<Dset>, q: Queue, ws: seq<Write>, i: nat, buf: seq<byte>, base: nat, kinds: map<int, Kind>)
    requires Chain(q) && i < |q.reqs| == |ws| && Recorded(cfg, share, q, ws, i) && !Plain(cfg, q, ws, i)
    requires Typed(dsets, ws) && KindsOf(cfg, q, ws, base, i, kinds) && 0 <= q.reqs[i].hdr.did < |dsets|
    requires ReqFits(q.reqs[i]) && At(buf, base + Offset(q, i), ReqBytes(q.reqs[i]))
    ensures LinkOk(dsets, buf, base + Offset(q, i), Expected(q, ws, i), kinds, IsRecord(ws[i]))
  {
    hide IsRecord, Plain, RefersTo, Chain, Typed, KindsOf, ReqFits, ReqBytes, At, LinkOk, Expected;
    var j :| RefersTo(cfg, q, ws, i, j);
    LinkStands(cfg, dsets, q, ws, i, j, buf, base, kinds);
  }

  // ----- whole metadata datasets -----

  lemma NoKinds(cfg: bool, q: Queue, ws: seq<Write>, base: nat, kinds: map<int, Kind>)
    requires |q.reqs| == |ws|
    ensures KindsOf(cfg, q, ws, base, 0, kinds)
  {
  }

  lemma OneSectionLinks(cfg: bool, share: bool, dsets: seq<Dset>, s: Sec, buf: seq<byte>, base: nat, recs: seq<bool>)
    requires SecOk(cfg, share, s) && Typed(dsets, s.writes) && At(buf, base, SecBytes(cfg, share, s)) && |buf| >= base + s.q.mdsize
    requires LinksAfter(share, dsets, buf, base + s.q.mdsize, |buf|, recs)
    ensures LinksAfter(share, dsets, buf, base, |buf|, Records(s.writes) + recs)
  {
    hide Stored, LinksOk, Section, Typed, At;
    SecFits(cfg, share, s);
    StoredSection(cfg, share, s.q, s.writes);
    assert Records(s.writes)[0..] == Records(s.writes);
    forall cache: Cache, kinds: map<int, Kind> ensures LinksOk(share, dsets, buf, base, |buf|, cache, kinds, Records(s.writes) + recs)
    {
      NothingCached(cfg, s.q, s.writes, base, cache);
      NoKinds(cfg, s.q, s.writes, base, kinds);
      StoredLinks(cfg, share, dsets, s.q, s.writes, 0, buf, base, |buf|, cache, kinds, recs);
    }
  }

  function AllRecords(secs: seq<Sec>): (rs: seq<bool>)
    decreases |secs|
  {
    if secs == [] then [] else Records(secs[0].writes) + AllRecords(secs[1..])
  }

  lemma {:induction false} SectionsLink(cfg: bool, share: bool, dsets: seq<Dset>, secs: seq<Sec>, buf: seq<byte>, base: nat)
    requires SecsOk(cfg, share, secs) && AllTyped(dsets, secs)
    requires At(buf, base, Concat(cfg, share, secs)) && base + |Concat(cfg, share, secs)| == |buf|
    ensures LinksAfter(share, dsets, buf, base, |buf|, AllRecords(secs))
    decreases |secs|
  {
    hide SecOk, Typed, Step, LinksAfter, SecBytes, At, Records;
    if secs == [] {
      NothingLeft(share, dsets, buf, base);
    } else {
      AtSplit(buf, base, SecBytes(cfg, share, secs[0]), Concat(cfg, share, secs[1..]));
      SecLen(cfg, share, secs[0]);
      SectionsLink(cfg, share, dsets, secs[1..], buf, base + secs[0].q.mdsize);
      OneSectionLinks(cfg, share, dsets, secs[0], buf, base, AllRecords(secs[1..]));
    }
  }

  lemma SecLen(cfg: bool, share: bool, s: Sec)
    requires SecOk(cfg, share, s)
    ensures |SecBytes(cfg, share, s)| == s.q.mdsize
  {
    hide Stored;
  }

  lemma NothingLeft(share: bool, dsets: seq<Dset>, buf: seq<byte>, p: nat)
    requires p >= |buf|
    ensures LinksAfter(share, dsets, buf, p, |buf|, [])
  {
    hide Step;
  }

  // ----- the condition on the writes -----

  /** Write i of a section is a record write whose entry is a reference without record number. */
  ghost predicate RecordNumberDropped(share: bool, s: Sec, i: nat)
  {
    i < |s.q.reqs| == |s.writes| && IsRef(share, s.q.reqs[i].hdr) && !s.q.reqs[i].hdr.flag.rec && IsRecord(s.writes[i])
  }

  /** No write of dataset did is recorded this way. */
  ghost predicate RecordNumbersKept(share: bool, secs: seq<Sec>, did: int)
  {
    forall k, i :: 0 <= k < |secs| && 0 <= i < |secs[k].writes| && secs[k].writes[i].did == did ==> !RecordNumberDropped(share, secs[k], i)
  }

  lemma SectionCondition(cfg: bool, share: bool, s: Sec, did: int)
    requires SecOk(cfg, share, s)
    ensures |Entries(s)| == |s.writes|
    ensures NoSameRecordRef(share, Entries(s), Records(s.writes), did) <==>
            forall i :: 0 <= i < |s.writes| && s.writes[i].did == did ==> !RecordNumberDropped(share, s, i)
  {
    hide Stored, IsRecord;
    StoredSection(cfg, share, s.q, s.writes);
    StoredTells(cfg, share, s.q, s.writes);
    forall i | 0 <= i < |s.writes|
      ensures Entries(s)[i].hdr == s.q.reqs[i].hdr && Entries(s)[i].hdr.did == s.writes[i].did
      ensures SameRecordRef(share, Entries(s)[i], Records(s.writes)[i]) <==> RecordNumberDropped(share, s, i)
    {
      ExpectedHdr(s.q, s.writes, i);
    }
  }

  lemma SplitCondition(share: bool, es: seq<Entry>, rs: seq<bool>, fs: seq<Entry>, ss: seq<bool>, did: int)
    requires |es| == |rs| && |fs| == |ss|
    ensures NoSameRecordRef(share, es + fs, rs + ss, did) <==> NoSameRecordRef(share, es, rs, did) && NoSameRecordRef(share, fs, ss, did)
  {
    hide SameRecordRef;
    var a, b := es + fs, rs + ss;
    if NoSameRecordRef(share, a, b, did) {
      forall i | 0 <= i < |es| && es[i].hdr.did == did ensures !SameRecordRef(share, es[i], rs[i]) { assert a[i] == es[i] && b[i] == rs[i]; }
      forall i | 0 <= i < |fs| && fs[i].hdr.did == did ensures !SameRecordRef(share, fs[i], ss[i])
      {
        assert a[|es| + i] == fs[i] && b[|es| + i] == ss[i];
      }
    }
  }

  lemma {:induction false} SectionsCondition(cfg: bool, share: bool, secs: seq<Sec>, did: int)
    requires SecsOk(cfg, share, secs)
    ensures |AllEntries(secs)| == |AllRecords(secs)|
    ensures NoSameRecordRef(share, AllEntries(secs), AllRecords(secs), did) <==> RecordNumbersKept(share, secs, did)
    decreases |secs|
  {
    hide SecOk, NoSameRecordRef, RecordNumberDropped, Entries;
    if secs == [] {
      NothingRecorded(share, did);
    } else {
      SectionCondition(cfg, share, secs[0], did);
      SectionsCondition(cfg, share, secs[1..], did);
      SplitCondition(share, Entries(secs[0]), Records(secs[0].writes), AllEntries(secs[1..]), AllRecords(secs[1..]), did);
      KeptCons(share, secs, did);
    }
  }

  lemma NothingRecorded(share: bool, did: int)
    ensures NoSameRecordRef(share, [], [], did)
  {
  }

  lemma KeptCons(share: bool, secs: seq<Sec>, did: int)
    requires secs != []
    ensures RecordNumbersKept(share, secs, did) <==>
            RecordNumbersKept(share, secs[1..], did) &&
            forall i :: 0 <= i < |secs[0].writes| && secs[0].writes[i].did == did ==> !RecordNumberDropped(share, secs[0], i)
  {
    hide RecordNumberDropped;
    var t := secs[1..];
    if RecordNumbersKept(share, secs, did) {
      forall k, i | 0 <= k < |t| && 0 <= i < |t[k].writes| && t[k].writes[i].did == did ensures !RecordNumberDropped(share, t[k], i)
      {
        assert secs[k + 1] == t[k];
      }
    }
    if RecordNumbersKept(share, t, did) && (forall i :: 0 <= i < |secs[0].writes| && secs[0].writes[i].did == did ==> !RecordNumberDropped(share, secs[0], i)) {
      forall k, i | 0 <= k < |secs| && 0 <= i < |secs[k].writes| && secs[k].writes[i].did == did ensures !RecordNumberDropped(share, secs[k], i)
      {
        if k > 0 { assert t[k - 1] == secs[k]; }
      }
    }
  }

  /** On every metadata dataset that writers produce, the two indexes answer every search alike, exactly when no
      record write of the dataset is recorded as a reference without its record number. */
  lemma WrittenIndexesAgree(cfg: bool, share: bool, dsets: seq<Dset>, secs: seq<Sec>, did: nat, bs: seq<Block>) returns (items: seq<Item>)
    requires SecsOk(cfg, share, secs) && AllTyped(dsets, secs) && did < |dsets| && Rank(|dsets[did].dims|, bs) && bs != []
    ensures var buf := Concat(cfg, share, secs); ParseCompact(share, dsets, buf, 0, |buf|, map[]) == Some(items)
    ensures var (n, esize, le, ce) := (|dsets[did].dims|, dsets[did].esize, OfDataset(AllEntries(secs), did), OfDid(items, did));
            Ranked(n, le) && |ce| == |le| && (NoFullRef(n, ce, le) <==> RecordNumbersKept(share, secs, did)) &&
            (SearchCompact(n, esize, ce, bs, 0) == Some(SearchList(n, esize, le, bs, 0)) <==> RecordNumbersKept(share, secs, did)) &&
            (!RecordNumbersKept(share, secs, did) ==> SearchCompact(n, esize, ce, bs, 0) == None)
  {
    hide SecsOk, AllTyped, ParseList, ParseCompact, LinksOk, SearchCompact, SearchList, NoFullRef, NoSameRecordRef,
         OfDataset, OfDid, Concat, AllEntries, AllRecords, RecordNumbersKept, ItemFor;
    var buf := Concat(cfg, share, secs);
    assert [] + buf + [] == buf;
    AtConcat([], buf, []);
    ParseSections(cfg, share, dsets, secs, buf, 0, map[]);
    SectionsLink(cfg, share, dsets, secs, buf, 0);
    SectionsCondition(cfg, share, secs, did);
    items := IndexesAgree(share, dsets, buf, AllEntries(secs), AllRecords(secs), did, bs);
  }

  // ----- fixed datasets -----

  /** A write of a dataset whose leading dimension is not unlimited never gets a record entry. */
  lemma FixedEntries(cfg: bool, share: bool, q: Queue, ws: seq<Write>, i: nat)
    requires Stored(cfg, share, q, ws) && i < |ws| && !ws[i].dset.unlimited
    ensures i < |q.reqs| && !q.reqs[i].hdr.flag.rec && q.reqs[i].record == None
  {
    hide WriteOk, Equal, MayEqual, TableHolds, EntryTail, Chain;
    assert Recorded(cfg, share, q, ws, i);
  }

  /** Its elements are therefore found by both indexes alike. */
  lemma FixedIndexesAgree(cfg: bool, share: bool, dsets: seq<Dset>, secs: seq<Sec>, did: nat, bs: seq<Block>) returns (items: seq<Item>)
    requires SecsOk(cfg, share, secs) && AllTyped(dsets, secs) && did < |dsets| && Rank(|dsets[did].dims|, bs) && bs != []
    requires forall k, i :: 0 <= k < |secs| && 0 <= i < |secs[k].writes| && secs[k].writes[i].did == did ==> !secs[k].writes[i].dset.unlimited
    ensures var buf := Concat(cfg, share, secs); ParseCompact(share, dsets, buf, 0, |buf|, map[]) == Some(items)
    ensures var (n, esize, le, ce) := (|dsets[did].dims|, dsets[did].esize, OfDataset(AllEntries(secs), did), OfDid(items, did));
            Ranked(n, le) && SearchCompact(n, esize, ce, bs, 0) == Some(SearchList(n, esize, le, bs, 0))
  {
    hide ParseCompact, SearchCompact, SearchList, NoFullRef, OfDataset, OfDid, Concat, AllEntries, AllTyped, Stored;
    items := WrittenIndexesAgree(cfg, share, dsets, secs, did, bs);
    assert RecordNumbersKept(share, secs, did);
  }
}
