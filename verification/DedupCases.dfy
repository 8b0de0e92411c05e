/** Inputs on which deduplication stores what is not read back, or what the compact index cannot search. */
module DedupCases {
  import opened Grid
  import opened Radix
  import opened Bytes
  import opened MetaCodec
  import opened EntryCodec
  import opened Dedup
  import opened Stream
  import opened DedupHits
  import opened IndexList
  import opened IndexSearch
  import opened IndexCompact
  import opened Sections
  import opened StreamIndex

  // ----- two writes, the second a hit on the first -----

  /** Both writes are long enough to be shared, and the second compares equal to the first. */
  ghost predicate Alike(cfg: bool, b: Write, a: Write)
  {
    WriteOk(cfg, a) && WriteOk(cfg, b) && MayEqual(NewReq(cfg, a, 0, 0), NewReq(cfg, b, 0, 0)) &&
    Shared(true, NewReq(cfg, a, 0, 0)) && Shared(true, NewReq(cfg, b, 0, 0))
  }

  ghost function After(cfg: bool, b: Write): (q: Queue)
    requires WriteOk(cfg, b)
  {
    Enqueue(cfg, true, EMPTY, b, None)
  }

  lemma FirstWrite(cfg: bool, b: Write)
    requires WriteOk(cfg, b) && Shared(true, NewReq(cfg, b, 0, 0))
    ensures var q, r := After(cfg, b), NewReq(cfg, b, 0, 0);
            r.hdr.metaSize > 0 && q == Queue([r], r.hdr.metaSize, {0}) && Fits64(q.mdsize) && Fits64(0 - q.mdsize) && Stored(cfg, true, q, [b])
  {
    hide WriteOk, EntryTail, Stored;
    FreshFits(cfg, b, 0, 0);
    PositiveSize(cfg, b);
    EmptyStored(cfg);
    EnqueueKeeps(cfg, true, EMPTY, [], b, None);
    assert EMPTY.reqs + [NewReq(cfg, b, 0, 0)] == [NewReq(cfg, b, 0, 0)] && EMPTY.table + {0} == {0} && [] + [b] == [b];
  }

  lemma EmptyStored(cfg: bool)
    ensures Stored(cfg, true, EMPTY, [])
  {
  }

  lemma PositiveSize(cfg: bool, b: Write)
    requires WriteOk(cfg, b)
    ensures 0 < NewReq(cfg, b, 0, 0).hdr.metaSize < TWO31
  {
    hide EntryTail, Encodes;
  }

  lemma SecondHits(cfg: bool, b: Write, a: Write)
    requires Alike(cfg, b, a)
    ensures var q := After(cfg, b);
            Hits(cfg, q, [b], a, 0) && Found(q, NewReq(cfg, a, q.mdsize, 0), Some(0)) && Shared(true, NewReq(cfg, a, q.mdsize, 0)) &&
            q.reqs[0].metaOff == 0 && Fits64(0 - q.mdsize)
  {
    hide WriteOk, EntryTail, Stored;
    FirstWrite(cfg, b);
  }

  /** The queue after both. */
  ghost function Both(cfg: bool, b: Write, a: Write): (q: Queue)
    requires Alike(cfg, b, a)
  {
    SecondHits(cfg, b, a);
    Enqueue(cfg, true, After(cfg, b), a, Some(0))
  }

  /** The queue is well-formed, and parsing its bytes does not return the two writes. */
  ghost predicate Misread(cfg: bool, b: Write, a: Write, dsets: seq<Dset>)
    requires Alike(cfg, b, a)
  {
    var q := Both(cfg, b, a);
    |q.reqs| == 2 && (forall i :: 0 <= i < 2 ==> ReqFits(q.reqs[i])) && |Section(q.reqs)| == q.mdsize &&
    ParseList(true, dsets, Section(q.reqs), 0, q.mdsize, map[]) != Some(AllExpected(q, [b, a], 0))
  }

  /** The metadata of two such writes are read back as the two writes exactly if the second may refer to the first. */
  lemma TwoWritesRead(cfg: bool, b: Write, a: Write, dsets: seq<Dset>)
    requires Alike(cfg, b, a) && Typed(dsets, [b, a])
    ensures Misread(cfg, b, a, dsets) <==> !Faithful(cfg, a, b)
  {
    hide WriteOk, NewReq, MayEqual, Shared, Faithful, ReqFits, ParseList, Section, AllExpected, Hits, Refer, Typed, Stored;
    SecondHits(cfg, b, a);
    FirstWrite(cfg, b);
    assert [b] + [a] == [b, a];
    HitReads(cfg, After(cfg, b), [b], a, 0, dsets);
  }

  // ----- which calls drop the record number -----

  /** Call i of a run is a hit, for a selection long enough to be shared, of a record write on one of the same record. */
  ghost predicate HitsSameRecord(cfg: bool, share: bool, calls: seq<Call>, i: nat)
    requires i < |calls| && WriteOk(cfg, calls[i].write)
  {
    var w, hit := calls[i].write, calls[i].hit;
    Shared(share, NewReq(cfg, w, 0, 0)) && IsRecord(w) && hit.Some? && hit.value < i &&
    IsRecord(calls[hit.value].write) && RecNum(w.blocks) == RecNum(calls[hit.value].write.blocks)
  }

  lemma {:induction false} RunExtends(cfg: bool, share: bool, calls: seq<Call>, qs: seq<Queue>, i: nat, n: nat)
    requires Run(cfg, share, calls, qs) && i <= n <= |calls|
    ensures |qs[i].reqs| == i && qs[i].reqs <= qs[n].reqs && |qs[n].reqs| == n
    decreases n
  {
    hide Admissible, WriteOk, NewReq, Refer, Found, Shared;
    if n == 0 {
      assert qs[0] == EMPTY;
    } else if i < n {
      RunExtends(cfg, share, calls, qs, i, n - 1);
      assert Next(cfg, share, calls, n - 1, qs[n - 1], qs[n]);
      assert qs[n].reqs[..n - 1] == qs[n - 1].reqs;
    } else {
      RunExtends(cfg, share, calls, qs, n - 1, n - 1);
      assert Next(cfg, share, calls, n - 1, qs[n - 1], qs[n]);
    }
  }

  lemma RefersRecord(cfg: bool, share: bool, w: Write, b: Write, r: Req, t: Req)
    requires WriteOk(cfg, w) && WriteOk(cfg, b) && Fits64(t.metaOff - r.metaOff)
    requires r == NewReq(cfg, w, r.metaOff, r.hdr.foff) && t == NewReq(cfg, b, t.metaOff, t.hdr.foff)
    ensures !r.hdr.flag.ref && (Shared(share, r) <==> Shared(share, NewReq(cfg, w, 0, 0)))
    ensures Refer(r, t).hdr.flag.ref
    ensures IsRecord(w) && !Refer(r, t).hdr.flag.rec <==> IsRecord(w) && IsRecord(b) && RecNum(w.blocks) == RecNum(b.blocks)
  {
    hide EntryTail, Encodes, BodyFits;
  }

  /** One call: what its request looks like. */
  lemma CallTells(cfg: bool, share: bool, calls: seq<Call>, qs: seq<Queue>, i: nat)
    requires Run(cfg, share, calls, qs) && i < |calls|
    ensures WriteOk(cfg, calls[i].write) && |qs[i + 1].reqs| == i + 1
    ensures var h := qs[i + 1].reqs[i].hdr;
            IsRef(share, h) && !h.flag.rec && IsRecord(calls[i].write) <==> HitsSameRecord(cfg, share, calls, i)
  {
    hide WriteOk, NewReq, Refer, MayEqual, Shared, Stored, IsRecord, Faithful;
    RunExtends(cfg, share, calls, qs, i, i + 1);
    RunStored(cfg, share, calls, qs, i);
    assert Next(cfg, share, calls, i, qs[i], qs[i + 1]);
    StoredFacts(cfg, share, qs[i], Writes(calls[..i]));
    var c, q := calls[i], qs[i];
    var r := NewReq(cfg, c.write, q.mdsize, 0);
    FreshFits(cfg, c.write, q.mdsize, 0);
    if c.hit.Some? {
      var t := c.hit.value;
      assert Plain(cfg, q, Writes(calls[..i]), t) && Writes(calls[..i])[t] == calls[t].write;
      RefersRecord(cfg, share, c.write, calls[t].write, r, q.reqs[t]);
    } else {
      RefersRecord(cfg, share, c.write, c.write, r, r);
    }
    SharedMeansSharing(share, r);
  }

  lemma SharedMeansSharing(share: bool, r: Req)
    ensures Shared(share, r) ==> share
  {
  }

  /** In the queue of every sequence of writes, the entries that drop the record number are those of the hits on the
      same record. */
  lemma CallsTell(cfg: bool, share: bool, calls: seq<Call>, qs: seq<Queue>, i: nat)
    requires Run(cfg, share, calls, qs) && i < |calls|
    ensures WriteOk(cfg, calls[i].write)
    ensures RecordNumberDropped(share, Sec(qs[|calls|], Writes(calls)), i) <==> HitsSameRecord(cfg, share, calls, i)
  {
    hide Next, WriteOk, HitsSameRecord, IsRecord;
    CallTells(cfg, share, calls, qs, i);
    RunExtends(cfg, share, calls, qs, i + 1, |calls|);
    assert qs[|calls|].reqs[i] == qs[i + 1].reqs[i] && Writes(calls)[i] == calls[i].write;
  }

  // ----- selections written out -----

  /** A selection of at least two words is shared. */
  lemma LongIsShared(cfg: bool, w: Write)
    requires WriteOk(cfg, w) && SelCount(cfg, w) > 1
    ensures Shared(true, NewReq(cfg, w, 0, 0))
  {
    ReqSize(cfg, w);
  }

  // ----- two element sizes -----

  /** Elements 0 and 2 of ten. */
  function Sparse(did: nat, esize: nat): Write
  {
    Write(did, Dset([10], false, esize), [Block([0], [1]), Block([2], [1])], seq(2 * esize, i => 0 as byte))
  }

  lemma SparseOk(did: nat, esize: nat)
    requires did <= 1 && 0 < esize <= 8
    ensures WriteOk(false, Sparse(did, esize)) && Shared(true, NewReq(false, Sparse(did, esize), 0, 0))
  {
    var w := Sparse(did, esize);
    var bs := w.blocks;
    assert InnerBlocks(false, bs) == bs;
    SelWordsLen(false, [10], bs);
    var ws := SelWords(false, [10], bs);
    assert StartsOf(bs) == [[0], [2]] && CountsOf(bs) == [[1], [1]];
    assert Flat([[0], [2]]) == [0] + ([2] + []) && Flat([[1], [1]]) == [1] + ([1] + []);
    assert Prod([1]) == 1 && SelSize(bs) == 2 by { assert bs[1..] == [Block([2], [1])] && [1][1..] == []; }
  }

  /** The same selection of two datasets with elements of four and of eight bytes: the second write compares equal
      to the first, and the metadata are not read back as the two writes. */
  lemma ElementSizesConfuse()
    ensures Alike(false, Sparse(0, 4), Sparse(1, 8)) && SameRecord(Sparse(1, 8), Sparse(0, 4))
    ensures Misread(false, Sparse(0, 4), Sparse(1, 8), [Sparse(0, 4).dset, Sparse(1, 8).dset])
  {
    hide WriteOk, NewReq, Shared, Misread, EntryTail;
    var b, a := Sparse(0, 4), Sparse(1, 8);
    SparseOk(0, 4);
    SparseOk(1, 8);
    SameSelection(false, a, b);
    TwoWritesRead(false, b, a, [b.dset, a.dset]);
  }

  /** Datasets that differ in the element size only. */
  lemma SameSelection(cfg: bool, a: Write, b: Write)
    requires WriteOk(cfg, a) && WriteOk(cfg, b) && a.blocks == b.blocks && a.dset.dims == b.dset.dims && a.dset.unlimited == b.dset.unlimited
    ensures MayEqual(NewReq(cfg, a, 0, 0), NewReq(cfg, b, 0, 0)) && SameRecord(a, b)
  {
    hide Encodes;
  }

  // ----- one record written twice -----

  /** Elements 1 to 4 of record 3. */
  function InRecordThree(): Write
  {
    Write(0, Dset([5, 10], true, 4), [Block([3, 1], [1, 4])], seq(16, i => 0 as byte))
  }

  lemma OneBlock()
    ensures Words0(false, [10], [Block([1], [4])]) == [1, 4]
  {
    var bs := [Block([1], [4])];
    assert StartsOf(bs) == [[1]] && CountsOf(bs) == [[4]];
    assert Flat([[1]]) == [1] + [] && Flat([[4]]) == [4] + [];
  }

  lemma IsInRecordThree()
    ensures IsRecord(InRecordThree()) && InnerDims(true, [5, 10]) == [10]
    ensures InnerBlocks(true, InRecordThree().blocks) == [Block([1], [4])]
  {
    assert [3, 1][1..] == [1] && [1, 4][1..] == [4];
  }

  lemma RecordOk()
    ensures WriteOk(false, InRecordThree()) && Shared(true, NewReq(false, InRecordThree(), 0, 0)) && IsRecord(InRecordThree())
  {
    hide SelWords, Words0, Words;
    OneBlock();
    IsInRecordThree();
    var bs := InRecordThree().blocks;
    assert [1, 4][1..] == [4] && [4][1..] == [] && bs[1..] == [];
    assert Prod([4]) == 4 && SelSize(bs) == 4;
  }

  function Twice(): (ws: seq<Write>) { [InRecordThree(), InRecordThree()] }

  lemma AlikeItself(cfg: bool, w: Write)
    requires WriteOk(cfg, w) && Shared(true, NewReq(cfg, w, 0, 0))
    ensures Alike(cfg, w, w) && Faithful(cfg, w, w)
  {
    hide WriteOk, NewReq;
  }

  /** The same write twice is a run. */
  lemma TwiceRuns(cfg: bool, w: Write) returns (calls: seq<Call>, qs: seq<Queue>)
    requires WriteOk(cfg, w) && Alike(cfg, w, w) && Faithful(cfg, w, w)
    ensures calls == [Call(w, None), Call(w, Some(0))] && Run(cfg, true, calls, qs) && |qs| == 3 && qs[2] == Both(cfg, w, w)
  {
    hide WriteOk, NewReq, Shared, MayEqual, Faithful, Enqueue;
    calls := [Call(w, None), Call(w, Some(0))];
    qs := [EMPTY, After(cfg, w), Both(cfg, w, w)];
    SecondHits(cfg, w, w);
    FirstWrite(cfg, w);
    assert Writes(calls[..0]) == [] && calls[..1] == [calls[0]] && Writes(calls[..1]) == [w];
    assert Next(cfg, true, calls, 0, qs[0], qs[1]);
    assert Next(cfg, true, calls, 1, qs[1], qs[2]);
  }

  lemma TwiceDrops() returns (q: Queue)
    ensures Stored(false, true, q, Twice()) && RecordNumberDropped(true, Sec(q, Twice()), 1)
  {
    hide WriteOk, NewReq, Shared, Faithful, Stored, Run, RecordNumberDropped, Both, IsRecord;
    var w := InRecordThree();
    RecordOk();
    AlikeItself(false, w);
    var calls, qs := TwiceRuns(false, w);
    q := qs[2];
    RunStored(false, true, calls, qs, 2);
    assert calls[..2] == calls && Writes(calls) == Twice();
    CallsTell(false, true, calls, qs, 1);
  }

  /** Two writes of the same elements of one record: the second entry drops its record number, and every search of the
      dataset in the compact index reads past its words, while the list index answers. */
  lemma RecordTwice(bs: seq<Block>) returns (q: Queue, items: seq<Item>)
    requires Rank(2, bs) && bs != []
    ensures Stored(false, true, q, Twice()) && RecordNumberDropped(true, Sec(q, Twice()), 1)
    ensures var (d, secs) := (InRecordThree().dset, [Sec(q, Twice())]);
            SecsOk(false, true, secs) &&
            (var buf := Concat(false, true, secs); ParseCompact(true, [d], buf, 0, |buf|, map[]) == Some(items)) &&
            |OfDid(items, 0)| == |OfDataset(AllEntries(secs), 0)| &&
            !NoFullRef(2, OfDid(items, 0), OfDataset(AllEntries(secs), 0)) &&
            SearchCompact(2, 4, OfDid(items, 0), bs, 0) == None
  {
    hide WriteOk, Stored, RecordNumberDropped, ParseCompact, Concat, SearchCompact, SearchList, NoFullRef, OfDid, OfDataset, AllEntries;
    q := TwiceDrops();
    var secs := [Sec(q, Twice())];
    assert SecOk(false, true, secs[0]);
    assert Typed([InRecordThree().dset], secs[0].writes);
    assert secs[0].writes[1].did == 0 && RecordNumberDropped(true, secs[0], 1);
    items := WrittenIndexesAgree(false, true, [InRecordThree().dset], secs, 0, bs);
  }

  // ----- a record write and another one -----

  /** Elements (0, 4) and (0, 6) to (0, 10) of record 2, step-encoded. */
  function RecordSide(): Write
  {
    Write(0, Dset([5, 3, 16], true, 1), [Block([2, 0, 4], [1, 1, 1]), Block([2, 0, 6], [1, 1, 5])], seq(6, i => 0 as byte))
  }

  /** Elements (0, 1, 2) and (1, 0, 1) of a fixed 2 x 4 x 4 dataset, step-encoded. */
  function FixedSide(): Write
  {
    Write(1, Dset([2, 4, 4], false, 1), [Block([0, 1, 2], [1, 1, 1]), Block([1, 0, 1], [1, 1, 1])], seq(2, i => 0 as byte))
  }

  lemma Weigh1(w: seq<nat>, c: Coord)
    requires |w| == |c| == 1
    ensures Weighted(w, c) == c[0] * w[0]
  {
    assert w[1..] == [] && c[1..] == [];
  }

  lemma Weigh2(w: seq<nat>, c: Coord)
    requires |w| == |c| == 2
    ensures Weighted(w, c) == c[0] * w[0] + c[1] * w[1]
  {
    Weigh1(w[1..], c[1..]);
  }

  lemma Weigh3(w: seq<nat>, c: Coord)
    requires |w| == |c| == 3
    ensures Weighted(w, c) == c[0] * w[0] + c[1] * w[1] + c[2] * w[2]
  {
    Weigh2(w[1..], c[1..]);
  }

  lemma Steps()
    ensures Dsteps([3, 16]) == [16, 1] && Dsteps([2, 4, 4]) == [16, 4, 1]
  {
    assert [3, 16][1..] == [16] && [16][1..] == [] && [2, 4, 4][1..] == [4, 4] && [4, 4][1..] == [4] && [4][1..] == [];
    assert Prod([]) == 1 && Prod([16]) == 16 && Prod([4]) == 4 && Prod([4, 4]) == 16;
    assert Dsteps([16]) == [1] && Dsteps([4]) == [1] && Dsteps([4, 4]) == [4, 1];
  }

  /** The step-encoded words of two blocks. */
  lemma TwoBlocks(dims: Coord, ds: seq<nat>, x: Block, y: Block)
    requires Rank(|dims|, [x, y]) && |x.start| == |x.count| == |y.start| == |y.count| == |ds| == |dims| > 1 && ds == Dsteps(dims)
    ensures Words0(true, dims, [x, y]) == ds[..|dims| - 1] +
              ([Weighted(ds, x.start), Weighted(ds, y.start)] + [Weighted(ds, x.count), Weighted(ds, y.count)])
  {
    hide Dsteps, Weighted;
    var bs := [x, y];
    assert Positions(ds, StartsOf(bs)) == [Weighted(ds, x.start), Weighted(ds, y.start)];
    assert Positions(ds, CountsOf(bs)) == [Weighted(ds, x.count), Weighted(ds, y.count)];
  }

  lemma RecordIsRecord()
    ensures IsRecord(RecordSide()) && InnerDims(true, [5, 3, 16]) == [3, 16]
    ensures InnerBlocks(true, RecordSide().blocks) == [Block([0, 4], [1, 1]), Block([0, 6], [1, 5])]
  {
    assert [2, 0, 4][1..] == [0, 4] && [1, 1, 1][1..] == [1, 1] && [2, 0, 6][1..] == [0, 6] && [1, 1, 5][1..] == [1, 5];
  }

  lemma RecordWords()
    ensures Words0(true, [3, 16], [Block([0, 4], [1, 1]), Block([0, 6], [1, 5])]) == [16, 4, 6, 17, 21]
  {
    hide Words0;
    Steps();
    Weigh2([16, 1], [0, 4]);
    Weigh2([16, 1], [0, 6]);
    Weigh2([16, 1], [1, 1]);
    Weigh2([16, 1], [1, 5]);
    TwoBlocks([3, 16], [16, 1], Block([0, 4], [1, 1]), Block([0, 6], [1, 5]));
    assert [16, 1][..1] + ([4, 6] + [17, 21]) == [16, 4, 6, 17, 21];
  }

  lemma FixedIsFixed()
    ensures Rank(3, FixedSide().blocks) && !IsRec(FixedSide().dset, FixedSide().blocks)
    ensures InnerBlocks(false, FixedSide().blocks) == [Block([0, 1, 2], [1, 1, 1]), Block([1, 0, 1], [1, 1, 1])]
  {
  }

  lemma FixedWords()
    ensures Words0(true, [2, 4, 4], [Block([0, 1, 2], [1, 1, 1]), Block([1, 0, 1], [1, 1, 1])]) == [16, 4, 6, 17, 21, 21]
  {
    hide Words0;
    Steps();
    var ds := [16, 4, 1];
    Weigh3(ds, [0, 1, 2]);
    Weigh3(ds, [1, 0, 1]);
    Weigh3(ds, [1, 1, 1]);
    TwoBlocks([2, 4, 4], ds, Block([0, 1, 2], [1, 1, 1]), Block([1, 0, 1], [1, 1, 1]));
    assert ds[..2] + ([6, 17] + [21, 21]) == [16, 4, 6, 17, 21, 21];
  }

  lemma Unit3(c: Coord, x: nat)
    requires c == [1, 1, x]
    ensures Prod(c) == x
  {
    assert c[1..] == [1, x] && [1, x][1..] == [x] && [x][1..] == [];
    assert Prod([x]) == x && Prod([1, x]) == x;
  }

  lemma RecordSideOk()
    ensures WriteOk(true, RecordSide()) && SelCount(true, RecordSide()) == 5
  {
    hide SelWords, Words0, Words, Dsteps;
    RecordIsRecord();
    RecordWords();
    var bs := RecordSide().blocks;
    Unit3([1, 1, 1], 1);
    Unit3([1, 1, 5], 5);
    assert bs[1..] == [bs[1]] && [bs[1]][1..] == [];
    assert SelSize([bs[1]]) == 5 && SelSize(bs) == 6;
  }

  lemma FixedSideOk()
    ensures WriteOk(true, FixedSide()) && SelCount(true, FixedSide()) == 6
  {
    hide SelWords, Words0, Words, Dsteps;
    FixedIsFixed();
    FixedWords();
    var bs := FixedSide().blocks;
    Unit3([1, 1, 1], 1);
    assert bs[1..] == [bs[1]] && [bs[1]][1..] == [];
    assert SelSize([bs[1]]) == 1 && SelSize(bs) == 2;
  }

  lemma SidesEqual()
    requires WriteOk(true, RecordSide()) && WriteOk(true, FixedSide())
    ensures EntryTail(true, RecordSide().dset, RecordSide().blocks) <= EntryTail(true, FixedSide().dset, FixedSide().blocks)
  {
    hide SelWords, Words0, Words, CountField, Encodes;
    RecordIsRecord();
    FixedIsFixed();
    RecordWords();
    FixedWords();
    var v, w := [16, 4, 6, 17, 21], [16, 4, 6, 17, 21, 21];
    WordsConcat(v, [21]);
    assert v + [21] == w;
    assert EntryTail(true, RecordSide().dset, RecordSide().blocks) == CountField(2) + Words(v);
    assert EntryTail(true, FixedSide().dset, FixedSide().blocks) == CountField(2) + Words(w);
    ConcatAssoc(CountField(2), Words(v), Words([21]));
  }

  /** Under step encoding a record write can compare equal to another one: its entry is then not read back as it was
      written. */
  lemma RecordFlagsConfuse()
    ensures Alike(true, FixedSide(), RecordSide()) && !SameRecord(RecordSide(), FixedSide())
    ensures Misread(true, FixedSide(), RecordSide(), [RecordSide().dset, FixedSide().dset])
  {
    hide WriteOk, Shared, Misread, EntryTail, IsRec;
    var b, a := FixedSide(), RecordSide();
    RecordIsRecord();
    FixedIsFixed();
    RecordSideOk();
    FixedSideOk();
    LongIsShared(true, a);
    LongIsShared(true, b);
    ReqSize(true, a);
    ReqSize(true, b);
    SidesEqual();
    TwoWritesRead(true, b, a, [a.dset, b.dset]);
  }
}
