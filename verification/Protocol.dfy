/** The states of an open file over all its processes, the steps of the protocol, and what every run keeps. */
module Protocol {
  import opened Grid
  import opened Bytes
  import opened MetaCodec
  import opened EntryCodec
  import opened Dedup
  import opened Stream
  import opened IndexSearch
  import opened Flush
  import opened Sections
  import opened WriteOrder

  /** The processes, the data file, the metadata datasets, and the flag for unflushed metadata, which every
      process sets and clears in the same collective steps. */
  datatype World = World(dsets: seq<Dset>, ranks: seq<Process>, file: seq<byte>, mds: seq<seq<byte>>, dirty: bool)

  // ----- records and pending writes over the processes -----

  function FlushedOf(ranks: seq<Process>, r: nat): (rs: seq<Rec>)
    requires Counts(ranks) && r <= |ranks|
    decreases r
  {
    if r == 0 then [] else FlushedOf(ranks, r - 1) + RecsFrom(ranks[r - 1], 0)[..ranks[r - 1].nflushed]
  }

  function SecRecs(s: Sec): (rs: seq<Rec>)
  {
    if |s.q.reqs| == |s.writes| then seq(|s.writes|, i requires 0 <= i < |s.writes| => Rec(s.writes[i], s.q.reqs[i].hdr.foff)) else []
  }

  function SecsRecs(secs: seq<Sec>): (rs: seq<Rec>)
    decreases |secs|
  {
    if secs == [] then [] else SecRecs(secs[0]) + SecsRecs(secs[1..])
  }

  function AllRecs(all: seq<seq<Sec>>): (rs: seq<Rec>)
    decreases |all|
  {
    if all == [] then [] else SecsRecs(all[0]) + AllRecs(all[1..])
  }

  // ----- the invariant -----

  ghost predicate RankOk(cfg: bool, share: bool, dsets: seq<Dset>, rk: Process)
  {
    Stored(cfg, share, rk.q, rk.writes) && rk.nflushed <= |rk.writes| == |rk.q.reqs| && Typed(dsets, rk.writes)
  }

  /** Data of the log are stored at increasing, disjoint addresses. */
  ghost predicate LogOk(file: seq<byte>, log: seq<Rec>)
  {
    (forall i :: 0 <= i < |log| ==> Holds(file, log[i])) && forall i, j :: 0 <= i < j < |log| ==> RecEnd(log[i]) <= log[j].foff
  }

  ghost predicate IndexOk(rk: Process, all: seq<seq<Sec>>, n: nat)
  {
    rk.idxvalid ==> |rk.index| == n && forall d :: 0 <= d < n ==> rk.index[d] == OfDataset(EntriesOf(all), d)
  }

  /** Request queues: flushed requests first, every request recorded in full or by reference. */
  ghost predicate QueuesOk(cfg: bool, share: bool, w: World)
  {
    w.ranks != [] && Counts(w.ranks) && forall r :: 0 <= r < |w.ranks| ==> RankOk(cfg, share, w.dsets, w.ranks[r])
  }

  /** Every stored write is recorded once, in a metadata dataset or in a queue; every write issued is stored or
      pending. */
  ghost predicate Accounted(ranks: seq<Process>, h: Hist)
    requires Counts(ranks)
  {
    multiset(h.log) == multiset(AllRecs(h.all)) + multiset(FlushedOf(ranks, |ranks|)) &&
    multiset(IssuedWrites(h.issued)) == multiset(WritesOf(h.log)) + multiset(PendingOf(ranks, |ranks|))
  }

  /** Clean metadata leave no flushed request in a queue; a valid index is the parse of all metadata datasets. */
  ghost predicate FlagsOk(w: World, h: Hist)
  {
    (!w.dirty ==> forall r :: 0 <= r < |w.ranks| ==> w.ranks[r].nflushed == 0) &&
    forall r :: 0 <= r < |w.ranks| ==> IndexOk(w.ranks[r], h.all, |w.dsets|)
  }

  /** What every run keeps. */
  ghost predicate Inv(cfg: bool, share: bool, w: World, h: Hist)
  {
    QueuesOk(cfg, share, w) && MetaHolds(cfg, share, w.dsets, h.all, w.mds) && LogOk(w.file, h.log) &&
    Accounted(w.ranks, h) && Ordered(w.ranks, h) && FlagsOk(w, h)
  }

  // ----- steps -----

  /** A write call on process r. */
  ghost function WriteStep(cfg: bool, share: bool, w: World, r: nat, x: Write, hit: Option<nat>): World
    requires r < |w.ranks| && WriteOk(cfg, x) && Found(w.ranks[r].q, NewReq(cfg, x, w.ranks[r].q.mdsize, 0), hit)
    requires hit.Some? ==> Fits64(w.ranks[r].q.reqs[hit.value].metaOff - w.ranks[r].q.mdsize)
  {
    var rk := w.ranks[r];
    w.(ranks := w.ranks[r := rk.(q := Enqueue(cfg, share, rk.q, x, hit), writes := rk.writes + [x])])
  }

  /** A change of a dataset's extent: its rank and element size stay. */
  function ExtentStep(w: World, d: nat, dims: Coord): World
    requires d < |w.dsets|
  {
    w.(dsets := w.dsets[d := w.dsets[d].(dims := dims)])
  }

  /** A collective flush into a log dataset at address doff. */
  function FlushStep(w: World, doff: nat): World
    requires Counts(w.ranks) && |w.file| <= doff
  {
    if Before(w.ranks, |w.ranks|) == 0 then w
    else w.(ranks := FlushRanks(w.ranks, doff), file := WriteLog(w.file, doff, AllData(w.ranks, |w.ranks|)), dirty := true)
  }

  function SecsOf(ranks: seq<Process>): (secs: seq<Sec>)
    ensures |secs| == |ranks|
  {
    seq(|ranks|, r requires 0 <= r < |ranks| => Sec(ranks[r].q, ranks[r].writes))
  }

  function Cleared(rk: Process): Process { Process(EMPTY, [], 0, false, rk.index) }

  function ClearRanks(ranks: seq<Process>): (rs: seq<Process>)
    ensures |rs| == |ranks|
  {
    seq(|ranks|, r requires 0 <= r < |ranks| => Cleared(ranks[r]))
  }

  /** A collective metadata flush; a dataset is created only if there are entries. */
  ghost function MetaStep(cfg: bool, share: bool, w: World): World
    requires SecsOk(cfg, share, SecsOf(w.ranks)) && AllFit(Table(SecsOf(w.ranks)))
  {
    w.(ranks := ClearRanks(w.ranks), dirty := false,
       mds := if TotalSize(SecsOf(w.ranks)) == 0 then w.mds else w.mds + [Dataset(cfg, share, SecsOf(w.ranks))])
  }

  /** Process r loads its index. */
  function LoadStep(w: World, r: nat, index: seq<seq<Entry>>): World
    requires r < |w.ranks|
  {
    w.(ranks := w.ranks[r := w.ranks[r].(idxvalid := true, index := index)])
  }

  /** The guard of a metadata flush: nothing is pending anywhere. */
  ghost predicate NothingPending(ranks: seq<Process>)
  {
    forall r :: 0 <= r < |ranks| ==> ranks[r].nflushed == |ranks[r].writes|
  }

  // ----- writing -----

  lemma {:induction false} UpdateElsewhere(ranks: seq<Process>, rs: seq<Process>, r: nat, n: nat)
    requires Counts(ranks) && Counts(rs) && |rs| == |ranks| && n <= r < |ranks| && rs == ranks[r := rs[r]]
    ensures PendingOf(rs, n) == PendingOf(ranks, n) && FlushedOf(rs, n) == FlushedOf(ranks, n)
    decreases n
  {
    if n > 0 { UpdateElsewhere(ranks, rs, r, n - 1); }
  }

  lemma OneRank(a: Process, b: Process, x: Write)
    requires a.nflushed <= |a.writes| == |a.q.reqs| && b.nflushed <= |b.writes| == |b.q.reqs|
    requires b.writes == a.writes + [x] && b.nflushed == a.nflushed
    requires forall i :: 0 <= i < |a.writes| ==> b.q.reqs[i] == a.q.reqs[i]
    ensures Pending(b) == Pending(a) + [x] && RecsFrom(b, 0)[..b.nflushed] == RecsFrom(a, 0)[..a.nflushed]
  {
  }

  /** One more request at the end of one queue: one more pending write, flushed records as before. */
  lemma {:induction false} OneMore(ranks: seq<Process>, rs: seq<Process>, r: nat, n: nat, x: Write)
    requires Counts(ranks) && Counts(rs) && |rs| == |ranks| && r < n <= |ranks| && rs == ranks[r := rs[r]]
    requires Pending(rs[r]) == Pending(ranks[r]) + [x]
    requires RecsFrom(rs[r], 0)[..rs[r].nflushed] == RecsFrom(ranks[r], 0)[..ranks[r].nflushed]
    ensures multiset(PendingOf(rs, n)) == multiset(PendingOf(ranks, n)) + multiset{x} && FlushedOf(rs, n) == FlushedOf(ranks, n)
    decreases n
  {
    hide RecsFrom, Pending;
    if n - 1 == r {
      UpdateElsewhere(ranks, rs, r, n - 1);
    } else {
      OneMore(ranks, rs, r, n - 1, x);
    }
  }

  lemma EnqueueAppends(cfg: bool, share: bool, q: Queue, x: Write, hit: Option<nat>)
    requires WriteOk(cfg, x) && Found(q, NewReq(cfg, x, q.mdsize, 0), hit)
    requires hit.Some? ==> Fits64(q.reqs[hit.value].metaOff - q.mdsize)
    ensures |Enqueue(cfg, share, q, x, hit).reqs| == |q.reqs| + 1
    ensures forall i :: 0 <= i < |q.reqs| ==> Enqueue(cfg, share, q, x, hit).reqs[i] == q.reqs[i]
  {
    hide WriteOk, EntryTail, MayEqual;
  }

  /** A write keeps the invariant; the write is pending. */
  lemma WriteKeeps(cfg: bool, share: bool, w: World, h: Hist, r: nat, x: Write, hit: Option<nat>)
    requires Inv(cfg, share, w, h) && r < |w.ranks| && Admissible(cfg, share, w.ranks[r].q, w.ranks[r].writes, x, hit)
    requires x.did < |w.dsets| && x.dset == w.dsets[x.did]
    ensures hit.Some? ==> Fits64(w.ranks[r].q.reqs[hit.value].metaOff - w.ranks[r].q.mdsize)
    ensures r < |h.pend| && Inv(cfg, share, WriteStep(cfg, share, w, r, x, hit), Issued(h, r, x))
  {
    hide LogInOrder, PendInOrder, Known, Epochs, WriteOk, NewReq, Stored, MetaHolds, LogOk, FlagsOk, Accounted, Enqueue, MayEqual, Faithful, Typed, Found;
    var rk := w.ranks[r];
    EnqueueKeeps(cfg, share, rk.q, rk.writes, x, hit);
    EnqueueAppends(cfg, share, rk.q, x, hit);
    TypedSnoc(w.dsets, rk.writes, x);
    var v := WriteStep(cfg, share, w, r, x, hit);
    assert RankOk(cfg, share, w.dsets, v.ranks[r]);
    assert Counts(v.ranks);
    OneRank(rk, v.ranks[r], x);
    WriteAccounted(w.ranks, v.ranks, h, r, x);
    WriteOrdered(w.ranks, v.ranks, h, r, x);
    WriteFlags(w, v, h, r, x);
  }

  lemma WriteAccounted(ranks: seq<Process>, rs: seq<Process>, h: Hist, r: nat, x: Write)
    requires Counts(ranks) && Counts(rs) && |rs| == |ranks| && r < |ranks| && rs == ranks[r := rs[r]] && Accounted(ranks, h)
    requires Pending(rs[r]) == Pending(ranks[r]) + [x]
    requires RecsFrom(rs[r], 0)[..rs[r].nflushed] == RecsFrom(ranks[r], 0)[..ranks[r].nflushed] && r < |h.pend|
    ensures Accounted(rs, Issued(h, r, x))
  {
    hide RecsFrom, Pending, PendingOf, FlushedOf;
    OneMore(ranks, rs, r, |ranks|, x);
    assert IssuedWrites(Issued(h, r, x).issued) == IssuedWrites(h.issued) + [x];
  }

  lemma WriteFlags(w: World, v: World, h: Hist, r: nat, x: Write)
    requires FlagsOk(w, h) && r < |w.ranks| && |v.ranks| == |w.ranks| && v.ranks == w.ranks[r := v.ranks[r]]
    requires v.dsets == w.dsets && v.dirty == w.dirty
    requires v.ranks[r] == w.ranks[r].(q := v.ranks[r].q, writes := v.ranks[r].writes) && r < |h.pend|
    ensures FlagsOk(v, Issued(h, r, x))
  {
    hide EntriesOf, OfDataset;
    forall i | 0 <= i < |v.ranks| ensures IndexOk(v.ranks[i], h.all, |v.dsets|) { assert IndexOk(w.ranks[i], h.all, |w.dsets|); }
  }

  lemma TypedSnoc(dsets: seq<Dset>, ws: seq<Write>, x: Write)
    requires Typed(dsets, ws) && x.did < |dsets| && x.dset == dsets[x.did]
    ensures Typed(dsets, ws + [x])
  {
  }

  // ----- extents -----

  lemma TypedExtent(dsets: seq<Dset>, ws: seq<Write>, d: nat, dims: Coord)
    requires Typed(dsets, ws) && d < |dsets| && |dims| == |dsets[d].dims|
    ensures Typed(dsets[d := dsets[d].(dims := dims)], ws)
  {
  }

  /** A change of extent keeps the invariant: recorded entries carry their own steps. */
  lemma ExtentKeeps(cfg: bool, share: bool, w: World, h: Hist, d: nat, dims: Coord)
    requires Inv(cfg, share, w, h) && d < |w.dsets| && |dims| == |w.dsets[d].dims|
    ensures Inv(cfg, share, ExtentStep(w, d, dims), h)
  {
    hide Stored, LogOk, Accounted, Ordered, Typed, SecsOk, Dataset, Table, EntriesOf, OfDataset;
    var v := ExtentStep(w, d, dims);
    forall r | 0 <= r < |v.ranks| ensures RankOk(cfg, share, v.dsets, v.ranks[r])
    {
      assert RankOk(cfg, share, w.dsets, w.ranks[r]);
      TypedExtent(w.dsets, w.ranks[r].writes, d, dims);
    }
    forall i | 0 <= i < |h.all| ensures Stands(cfg, share, v.dsets, h.all[i], v.mds[i])
    {
      assert Stands(cfg, share, w.dsets, h.all[i], w.mds[i]);
      forall j | 0 <= j < |h.all[i]| ensures Typed(v.dsets, h.all[i][j].writes) { TypedExtent(w.dsets, h.all[i][j].writes, d, dims); }
    }
    forall r | 0 <= r < |v.ranks| ensures IndexOk(v.ranks[r], h.all, |v.dsets|) { assert IndexOk(w.ranks[r], h.all, |w.dsets|); }
  }

  // ----- flushing -----

  lemma {:induction false} RankRecsWrites(ws: seq<Write>, off: int)
    ensures WritesOf(RankRecs(ws, off)) == ws
    decreases |ws|
  {
    if ws != [] {
      RankRecsWrites(ws[1..], off + |ws[0].data|);
      assert WritesOf(RankRecs(ws, off)) == [ws[0]] + WritesOf(RankRecs(ws[1..], off + |ws[0].data|));
    }
  }

  lemma WritesConcat(a: seq<Rec>, b: seq<Rec>)
    ensures WritesOf(a + b) == WritesOf(a) + WritesOf(b)
  {
  }

  lemma {:induction false} FlushRecsWrites(ranks: seq<Process>, doff: int, n: nat)
    requires Counts(ranks) && n <= |ranks|
    ensures WritesOf(FlushRecs(ranks, doff, n)) == PendingOf(ranks, n)
    decreases n
  {
    hide RankRecs, Pending, Before;
    if n > 0 {
      FlushRecsWrites(ranks, doff, n - 1);
      RankRecsWrites(Pending(ranks[n - 1]), doff + Before(ranks, n - 1));
      WritesConcat(FlushRecs(ranks, doff, n - 1), RankRecs(Pending(ranks[n - 1]), doff + Before(ranks, n - 1)));
    }
  }

  /** One process: its flushed records are the old ones and those of the flush. */
  lemma RankFlushed(rk: Process, off: int)
    requires rk.nflushed <= |rk.writes| == |rk.q.reqs|
    ensures var f := FlushRank(rk, off);
            RecsFrom(f, 0)[..f.nflushed] == RecsFrom(rk, 0)[..rk.nflushed] + RankRecs(Pending(rk), off) && Pending(f) == []
  {
    var f := FlushRank(rk, off);
    FlushedRecs(rk, off);
    var n := rk.nflushed;
    var all := RecsFrom(f, 0);
    assert all[..f.nflushed] == all;
    assert all[n..] == RecsFrom(f, n);
    assert all[..n] == RecsFrom(rk, 0)[..n];
    assert all == all[..n] + all[n..];
  }

  ghost predicate FlushedTo(a: Process, b: Process, off: int)
    requires a.nflushed <= |a.writes| == |a.q.reqs| && b.nflushed <= |b.writes| == |b.q.reqs|
  {
    RecsFrom(b, 0)[..b.nflushed] == RecsFrom(a, 0)[..a.nflushed] + RankRecs(Pending(a), off) && Pending(b) == []
  }

  lemma {:induction false} FlushedGrow(ranks: seq<Process>, rs: seq<Process>, doff: int, n: nat)
    requires Counts(ranks) && Counts(rs) && |rs| == |ranks| && n <= |ranks|
    requires forall r :: 0 <= r < |ranks| ==> FlushedTo(ranks[r], rs[r], doff + Before(ranks, r))
    ensures multiset(FlushedOf(rs, n)) == multiset(FlushedOf(ranks, n)) + multiset(FlushRecs(ranks, doff, n))
    ensures PendingOf(rs, n) == []
    decreases n
  {
    hide RankRecs, Pending, Before, RecsFrom, FlushedTo, FlushedOf, FlushRecs, PendingOf;
    if n == 0 {
      NothingGrown(ranks, rs, doff);
    } else {
      FlushedGrow(ranks, rs, doff, n - 1);
      OneFlushed(ranks, rs, doff, n);
      ThreeParts(FlushedOf(ranks, n - 1), FlushRecs(ranks, doff, n - 1), RecsFrom(ranks[n - 1], 0)[..ranks[n - 1].nflushed],
                 RankRecs(Pending(ranks[n - 1]), doff + Before(ranks, n - 1)), FlushedOf(rs, n - 1));
    }
  }

  lemma NothingGrown(ranks: seq<Process>, rs: seq<Process>, doff: int)
    requires Counts(ranks) && Counts(rs)
    ensures FlushedOf(rs, 0) == [] && FlushedOf(ranks, 0) == [] && FlushRecs(ranks, doff, 0) == [] && PendingOf(rs, 0) == []
  {
  }

  lemma OneFlushed(ranks: seq<Process>, rs: seq<Process>, doff: int, n: nat)
    requires Counts(ranks) && Counts(rs) && |rs| == |ranks| && 0 < n <= |ranks|
    requires FlushedTo(ranks[n - 1], rs[n - 1], doff + Before(ranks, n - 1))
    ensures FlushedOf(rs, n) == FlushedOf(rs, n - 1) +
            (RecsFrom(ranks[n - 1], 0)[..ranks[n - 1].nflushed] + RankRecs(Pending(ranks[n - 1]), doff + Before(ranks, n - 1)))
    ensures FlushedOf(ranks, n) == FlushedOf(ranks, n - 1) + RecsFrom(ranks[n - 1], 0)[..ranks[n - 1].nflushed]
    ensures FlushRecs(ranks, doff, n) == FlushRecs(ranks, doff, n - 1) + RankRecs(Pending(ranks[n - 1]), doff + Before(ranks, n - 1))
    ensures PendingOf(rs, n) == PendingOf(rs, n - 1) + []
  {
    hide RankRecs, Pending, Before, RecsFrom;
  }

  lemma ThreeParts(a: seq<Rec>, b: seq<Rec>, c: seq<Rec>, d: seq<Rec>, e: seq<Rec>)
    requires multiset(e) == multiset(a) + multiset(b)
    ensures multiset(e + (c + d)) == multiset(a + c) + multiset(b + d)
  {
  }

  lemma FlushLen(ranks: seq<Process>, doff: int)
    requires Counts(ranks)
    ensures |FlushRanks(ranks, doff)| == |ranks|
  {
  }

  lemma FlushRanksAt(ranks: seq<Process>, doff: int, r: nat)
    requires Counts(ranks) && r < |ranks|
    ensures |FlushRanks(ranks, doff)| == |ranks| && FlushRanks(ranks, doff)[r] == FlushRank(ranks[r], doff + Before(ranks, r))
  {
    hide Before, FlushRank;
  }

  lemma LogGrows(file: seq<byte>, log: seq<Rec>, ranks: seq<Process>, doff: nat)
    requires LogOk(file, log) && Counts(ranks) && |file| <= doff
    ensures LogOk(WriteLog(file, doff, AllData(ranks, |ranks|)), log + FlushRecs(ranks, doff, |ranks|))
  {
    hide Before, RankRecs, FlushRecs, AllData, WriteLog;
    var rs := FlushRecs(ranks, doff, |ranks|);
    FlushStores(file, ranks, doff);
    FlushTiles(ranks, doff, |ranks|);
    var s := log + rs;
    forall i, j | 0 <= i < j < |s| ensures RecEnd(s[i]) <= s[j].foff
    {
      if i >= |log| {
        TilesIncrease(rs, doff, doff + Before(ranks, |ranks|), i - |log|, j - |log|);
      } else if j >= |log| {
        TilesStart(rs, doff, doff + Before(ranks, |ranks|), j - |log|);
        assert Holds(file, log[i]);
      }
    }
    forall i | 0 <= i < |s| ensures Holds(WriteLog(file, doff, AllData(ranks, |ranks|)), s[i])
    {
      if i < |log| { assert Holds(file, log[i]); } else { assert s[i] in rs; }
    }
  }

  lemma TilesStart(rs: seq<Rec>, from: int, to: int, j: nat)
    requires Tiles(rs, from, to) && j < |rs|
    ensures from <= rs[j].foff
  {
    if j > 0 { TilesIncrease(rs, from, to, 0, j); }
  }

  lemma RankKept(cfg: bool, share: bool, dsets: seq<Dset>, rk: Process, off: nat)
    requires RankOk(cfg, share, dsets, rk) && Fits64(off + DataLen(Pending(rk)))
    ensures RankOk(cfg, share, dsets, FlushRank(rk, off))
  {
    hide Stored, Typed, Chain;
    var f := FlushRank(rk, off);
    AllPlacedFit(cfg, share, rk, off);
    PlacedStored(cfg, share, rk.q, rk.writes, f.q.reqs);
  }

  lemma AllPlacedFit(cfg: bool, share: bool, rk: Process, off: nat)
    requires Stored(cfg, share, rk.q, rk.writes) && rk.nflushed <= |rk.writes| == |rk.q.reqs| && Fits64(off + DataLen(Pending(rk)))
    ensures forall i :: 0 <= i < |rk.q.reqs| ==>
      SameButAddress(rk.q.reqs[i], FlushRank(rk, off).q.reqs[i]) && Fits64(FlushRank(rk, off).q.reqs[i].hdr.foff)
  {
    hide Stored, Chain, ReqFits, FlushRank, SameButAddress;
    StoredFacts(cfg, share, rk.q, rk.writes);
    FlushRankLen(rk, off);
    forall i | 0 <= i < |rk.q.reqs|
      ensures SameButAddress(rk.q.reqs[i], FlushRank(rk, off).q.reqs[i]) && Fits64(FlushRank(rk, off).q.reqs[i].hdr.foff)
    {
      OffsetStep(rk.q, i);
      PlacedFits(rk, off, i);
    }
  }

  lemma FlushRankLen(rk: Process, off: int)
    requires rk.nflushed <= |rk.writes| == |rk.q.reqs|
    ensures |FlushRank(rk, off).q.reqs| == |rk.q.reqs|
  {
  }

  lemma PlacedFits(rk: Process, off: nat, i: nat)
    requires rk.nflushed <= |rk.writes| == |rk.q.reqs| && i < |rk.q.reqs| && ReqFits(rk.q.reqs[i]) && Fits64(off + DataLen(Pending(rk)))
    ensures SameButAddress(rk.q.reqs[i], FlushRank(rk, off).q.reqs[i]) && Fits64(FlushRank(rk, off).q.reqs[i].hdr.foff)
  {
    if i >= rk.nflushed { PrefixLen(Pending(rk), i - rk.nflushed); }
  }

  lemma {:induction false} PrefixLen(ws: seq<Write>, k: nat)
    requires k <= |ws|
    ensures DataLen(ws[..k]) <= DataLen(ws)
    decreases |ws| - k
  {
    if k < |ws| {
      DataLenSnoc(ws, k);
      PrefixLen(ws, k + 1);
    } else {
      assert ws[..k] == ws;
    }
  }

  lemma {:induction false} BeforeMono(ranks: seq<Process>, r: nat, n: nat)
    requires Counts(ranks) && r <= n <= |ranks|
    ensures Before(ranks, r) <= Before(ranks, n)
    decreases n
  {
    if r < n { BeforeMono(ranks, r, n - 1); }
  }

  /** A flush keeps the invariant: all pending writes are stored, in order of process and program. */
  lemma FlushKeeps(cfg: bool, share: bool, w: World, h: Hist, doff: nat)
    requires Inv(cfg, share, w, h) && |w.file| <= doff && Fits64(doff + Before(w.ranks, |w.ranks|))
    requires Before(w.ranks, |w.ranks|) > 0
    ensures Inv(cfg, share, FlushStep(w, doff), Flushed(h, w.ranks, doff))
    ensures NothingPending(FlushStep(w, doff).ranks)
  {
    hide Ordered, LogOk, MetaHolds, Stored, Typed, WriteLog, AllData, Before, FlushRecs, Accounted, FlagsOk, FlushRank;
    var v, g := FlushStep(w, doff), Flushed(h, w.ranks, doff);
    FlushedAll(w.ranks, doff);
    forall r | 0 <= r < |v.ranks| ensures RankOk(cfg, share, v.dsets, v.ranks[r])
    {
      BeforeMono(w.ranks, r + 1, |w.ranks|);
      BeforeNext(w.ranks, r);
      RankKept(cfg, share, w.dsets, w.ranks[r], doff + Before(w.ranks, r));
    }
    LogGrows(w.file, h.log, w.ranks, doff);
    FlushAccounted(w.ranks, h, doff);
    FlushRecsWrites(w.ranks, doff, |w.ranks|);
    FlushOrdered(w.ranks, v.ranks, h, doff);
    FlushFlags(w, v, h, g, doff);
    forall r | 0 <= r < |v.ranks| ensures v.ranks[r].nflushed == |v.ranks[r].writes| { assert Pending(v.ranks[r]) == []; }
  }

  lemma BeforeNext(ranks: seq<Process>, r: nat)
    requires Counts(ranks) && r < |ranks|
    ensures Before(ranks, r + 1) == Before(ranks, r) + DataLen(Pending(ranks[r]))
  {
  }

  lemma FlushAccounted(ranks: seq<Process>, h: Hist, doff: nat)
    requires Counts(ranks) && Counts(FlushRanks(ranks, doff)) && Accounted(ranks, h)
    ensures Accounted(FlushRanks(ranks, doff), Flushed(h, ranks, doff))
  {
    hide PendBefore, Before, FlushRecs, FlushRanks, PendingOf, FlushedOf, AllRecs, RecsFrom, RankRecs, FlushRank;
    var rs := FlushRanks(ranks, doff);
    forall r | 0 <= r < |ranks| ensures FlushedTo(ranks[r], rs[r], doff + Before(ranks, r))
    {
      FlushRanksAt(ranks, doff, r);
      RankFlushed(ranks[r], doff + Before(ranks, r));
    }
    FlushLen(ranks, doff);
    FlushedGrow(ranks, rs, doff, |ranks|);
    FlushRecsWrites(ranks, doff, |ranks|);
    WritesConcat(h.log, FlushRecs(ranks, doff, |ranks|));
  }

  lemma FlushFlags(w: World, v: World, h: Hist, g: Hist, doff: nat)
    requires FlagsOk(w, h) && Counts(w.ranks) && v.ranks == FlushRanks(w.ranks, doff) && v.dirty && v.dsets == w.dsets && g.all == h.all
    ensures FlagsOk(v, g)
  {
    hide EntriesOf, OfDataset, Before;
    forall r | 0 <= r < |v.ranks| ensures IndexOk(v.ranks[r], g.all, |v.dsets|) { assert IndexOk(w.ranks[r], h.all, |w.dsets|); }
  }

  /** With no data to write a flush changes nothing, and nothing was pending. */
  lemma {:induction false} NoDataNothingPending(cfg: bool, share: bool, dsets: seq<Dset>, ranks: seq<Process>, n: nat)
    requires Counts(ranks) && n <= |ranks| && Before(ranks, n) == 0
    requires forall r :: 0 <= r < |ranks| ==> RankOk(cfg, share, dsets, ranks[r])
    requires forall d :: 0 <= d < |dsets| ==> dsets[d].esize > 0
    ensures forall r :: 0 <= r < n ==> ranks[r].nflushed == |ranks[r].writes|
    decreases n
  {
    hide Stored, Typed;
    if n > 0 {
      NoDataNothingPending(cfg, share, dsets, ranks, n - 1);
      PendingHasData(cfg, share, dsets, ranks[n - 1]);
    }
  }

  lemma PendingHasData(cfg: bool, share: bool, dsets: seq<Dset>, rk: Process)
    requires RankOk(cfg, share, dsets, rk) && forall d :: 0 <= d < |dsets| ==> dsets[d].esize > 0
    ensures rk.nflushed < |rk.writes| ==> DataLen(Pending(rk)) > 0
  {
    hide Stored, Typed;
    if rk.nflushed < |rk.writes| {
      WriteHasData(cfg, share, dsets, rk, rk.nflushed);
      assert Pending(rk)[0] == rk.writes[rk.nflushed];
    }
  }

  lemma WriteHasData(cfg: bool, share: bool, dsets: seq<Dset>, rk: Process, i: nat)
    requires RankOk(cfg, share, dsets, rk) && i < |rk.writes| && forall d :: 0 <= d < |dsets| ==> dsets[d].esize > 0
    ensures |rk.writes[i].data| > 0
  {
    hide EntryTail, NewReq, IsReference, MayEqual, Chain;
    var x := rk.writes[i];
    assert Recorded(cfg, share, rk.q, rk.writes, i);
    assert WriteOk(cfg, x);
    ProdPositive(x.blocks[0].count);
    Times(SelSize(x.blocks), x.dset.esize);
  }

  lemma Times(a: nat, b: nat)
    requires a > 0 && b > 0
    ensures a * b > 0
  {
  }

  // ----- metadata flush -----

  lemma SecsAreOk(cfg: bool, share: bool, dsets: seq<Dset>, ranks: seq<Process>)
    requires forall r :: 0 <= r < |ranks| ==> RankOk(cfg, share, dsets, ranks[r])
    ensures SecsOk(cfg, share, SecsOf(ranks)) && AllTyped(dsets, SecsOf(ranks))
  {
    hide Stored, Typed;
    forall r | 0 <= r < |ranks| ensures SecOk(cfg, share, SecsOf(ranks)[r]) && Typed(dsets, SecsOf(ranks)[r].writes)
    {
      assert RankOk(cfg, share, dsets, ranks[r]);
    }
  }

  lemma {:induction false} SecsRecsAre(ranks: seq<Process>, n: nat)
    requires Counts(ranks) && n <= |ranks| && forall r :: 0 <= r < n ==> ranks[r].nflushed == |ranks[r].writes|
    ensures SecsRecs(SecsOf(ranks[..n])) == FlushedOf(ranks, n)
    decreases n
  {
    if n == 0 {
      assert ranks[..0] == [];
    } else {
      SecsRecsAre(ranks, n - 1);
      var rk := ranks[n - 1];
      assert SecsOf(ranks[..n]) == SecsOf(ranks[..n - 1]) + [Sec(rk.q, rk.writes)];
      SecsRecsSnoc(SecsOf(ranks[..n - 1]), Sec(rk.q, rk.writes));
      assert SecRecs(Sec(rk.q, rk.writes)) == RecsFrom(rk, 0)[..rk.nflushed];
    }
  }

  lemma {:induction false} SecsRecsSnoc(secs: seq<Sec>, s: Sec)
    ensures SecsRecs(secs + [s]) == SecsRecs(secs) + SecRecs(s)
    decreases |secs|
  {
    hide SecRecs;
    if secs == [] {
      assert [] + [s] == [s] && [s][1..] == [];
      assert SecRecs(s) + [] == SecRecs(s);
    } else {
      SecsRecsSnoc(secs[1..], s);
      assert (secs + [s])[1..] == secs[1..] + [s] && (secs + [s])[0] == secs[0];
    }
  }

  lemma {:induction false} AllRecsSnoc(all: seq<seq<Sec>>, secs: seq<Sec>)
    ensures AllRecs(all + [secs]) == AllRecs(all) + SecsRecs(secs)
    decreases |all|
  {
    hide SecsRecs;
    if all == [] {
      assert [] + [secs] == [secs] && [secs][1..] == [];
      assert SecsRecs(secs) + [] == SecsRecs(secs);
    } else {
      AllRecsSnoc(all[1..], secs);
      assert (all + [secs])[1..] == all[1..] + [secs] && (all + [secs])[0] == all[0];
    }
  }

  lemma {:induction false} ClearedHasNothing(ranks: seq<Process>, n: nat)
    requires n <= |ranks|
    ensures Counts(ClearRanks(ranks)) && FlushedOf(ClearRanks(ranks), n) == [] && PendingOf(ClearRanks(ranks), n) == []
    decreases n
  {
    if n > 0 { ClearedHasNothing(ranks, n - 1); }
  }

  lemma {:induction false} NothingWaits(ranks: seq<Process>, n: nat)
    requires Counts(ranks) && NothingPending(ranks) && n <= |ranks|
    ensures PendingOf(ranks, n) == []
    decreases n
  {
    if n > 0 { NothingWaits(ranks, n - 1); }
  }

  /** Sections without entries come from queues without requests. */
  lemma {:induction false} EmptySections(cfg: bool, share: bool, secs: seq<Sec>)
    requires SecsOk(cfg, share, secs) && TotalSize(secs) == 0
    ensures SecsRecs(secs) == []
    decreases |secs|
  {
    hide Recorded, HdrFits;
    if secs != [] {
      assert SecOk(cfg, share, secs[0]);
      EmptySections(cfg, share, secs[1..]);
      OffsetsOrdered(secs[0].q, 0, |secs[0].q.reqs|);
    }
  }

  lemma MetaAccounted(cfg: bool, share: bool, ranks: seq<Process>, h: Hist, g: Hist)
    requires Counts(ranks) && Counts(ClearRanks(ranks)) && NothingPending(ranks) && Accounted(ranks, h) && SecsOk(cfg, share, SecsOf(ranks))
    requires g == if TotalSize(SecsOf(ranks)) == 0 then h else h.(all := h.all + [SecsOf(ranks)])
    ensures Accounted(ClearRanks(ranks), g)
  {
    hide SecOk, SecsRecs, AllRecs, FlushedOf, PendingOf, TotalSize, SecsOf, ClearRanks;
    NothingWaits(ranks, |ranks|);
    ClearedHasNothing(ranks, |ranks|);
    assert ranks[..|ranks|] == ranks;
    SecsRecsAre(ranks, |ranks|);
    AllRecsSnoc(h.all, SecsOf(ranks));
    if TotalSize(SecsOf(ranks)) == 0 { EmptySections(cfg, share, SecsOf(ranks)); }
    ClearLen(ranks);
  }

  lemma ClearLen(ranks: seq<Process>)
    ensures |ClearRanks(ranks)| == |ranks|
  {
  }

  lemma MetaGrows(cfg: bool, share: bool, dsets: seq<Dset>, all: seq<seq<Sec>>, mds: seq<seq<byte>>, secs: seq<Sec>)
    requires MetaHolds(cfg, share, dsets, all, mds) && secs != []
    requires SecsOk(cfg, share, secs) && AllTyped(dsets, secs) && AllFit(Table(secs))
    ensures MetaHolds(cfg, share, dsets, all + [secs], mds + [Dataset(cfg, share, secs)])
  {
    hide SecsOk, AllTyped, Table, Dataset;
    var a, m := all + [secs], mds + [Dataset(cfg, share, secs)];
    forall i | 0 <= i < |a| ensures a[i] != [] && Stands(cfg, share, dsets, a[i], m[i])
    {
      if i < |all| { assert Stands(cfg, share, dsets, all[i], mds[i]); }
    }
  }

  lemma ClearedRank(cfg: bool, share: bool, dsets: seq<Dset>, rk: Process)
    ensures RankOk(cfg, share, dsets, Cleared(rk))
  {
  }

  /** A metadata flush with nothing pending keeps the invariant: the flushed requests become sections. */
  lemma MetaKeeps(cfg: bool, share: bool, w: World, h: Hist)
    requires Inv(cfg, share, w, h) && NothingPending(w.ranks) && AllFit(Table(SecsOf(w.ranks)))
    ensures SecsOk(cfg, share, SecsOf(w.ranks))
    ensures Inv(cfg, share, MetaStep(cfg, share, w), if TotalSize(SecsOf(w.ranks)) == 0 then h else h.(all := h.all + [SecsOf(w.ranks)]))
    ensures NothingPending(MetaStep(cfg, share, w).ranks) && !MetaStep(cfg, share, w).dirty
  {
    hide Ordered, LogOk, MetaHolds, Accounted, FlagsOk, RankOk, SecsOk, Table, Dataset, AllTyped, TotalSize, NothingPending, Cleared;
    SecsAreOk(cfg, share, w.dsets, w.ranks);
    ClearedHasNothing(w.ranks, 0);
    MetaAccounted(cfg, share, w.ranks, h, if TotalSize(SecsOf(w.ranks)) == 0 then h else h.(all := h.all + [SecsOf(w.ranks)]));
    MetaGrows(cfg, share, w.dsets, h.all, w.mds, SecsOf(w.ranks));
    forall r | 0 <= r < |w.ranks| ensures RankOk(cfg, share, w.dsets, Cleared(w.ranks[r])) { ClearedRank(cfg, share, w.dsets, w.ranks[r]); }
    ClearedOrdered(w.ranks, h, if TotalSize(SecsOf(w.ranks)) == 0 then h else h.(all := h.all + [SecsOf(w.ranks)]));
    ClearedFlags(MetaStep(cfg, share, w), w.ranks, if TotalSize(SecsOf(w.ranks)) == 0 then h else h.(all := h.all + [SecsOf(w.ranks)]));
    ClearedNothingPending(w.ranks);
  }

  lemma ClearedOrdered(ranks: seq<Process>, h: Hist, g: Hist)
    requires Counts(ranks) && Counts(ClearRanks(ranks)) && NothingPending(ranks) && Ordered(ranks, h) && g == h.(all := g.all)
    ensures Ordered(ClearRanks(ranks), g)
  {
    hide Ordered;
    SameOrdered(ranks, ClearRanks(ranks), h, g);
  }

  lemma ClearedFlags(v: World, ranks: seq<Process>, g: Hist)
    requires v.ranks == ClearRanks(ranks)
    ensures FlagsOk(v, g)
  {
  }

  lemma ClearedNothingPending(ranks: seq<Process>)
    ensures NothingPending(ClearRanks(ranks))
  {
  }

  // ----- loading -----

  /** Loading keeps the invariant. */
  lemma LoadKeeps(cfg: bool, share: bool, w: World, h: Hist, r: nat, index: seq<seq<Entry>>)
    requires Inv(cfg, share, w, h) && r < |w.ranks| && |index| == |w.dsets|
    requires forall d :: 0 <= d < |index| ==> index[d] == OfDataset(EntriesOf(h.all), d)
    ensures Inv(cfg, share, LoadStep(w, r, index), h)
  {
    hide Ordered, LogOk, MetaHolds, Stored, Typed, EntriesOf, OfDataset, AllRecs;
    var v := LoadStep(w, r, index);
    forall i | 0 <= i < |v.ranks| ensures RankOk(cfg, share, v.dsets, v.ranks[i]) { assert RankOk(cfg, share, w.dsets, w.ranks[i]); }
    forall i | 0 <= i < |v.ranks| ensures IndexOk(v.ranks[i], h.all, |v.dsets|) { assert IndexOk(w.ranks[i], h.all, |w.dsets|); }
    LoadAccounts(w.ranks, v.ranks, |w.ranks|);
    SameOrdered(w.ranks, v.ranks, h, h);
  }

  lemma {:induction false} LoadAccounts(ranks: seq<Process>, rs: seq<Process>, n: nat)
    requires Counts(ranks) && Counts(rs) && |rs| == |ranks| && n <= |ranks|
    requires forall r :: 0 <= r < |ranks| ==> rs[r].q == ranks[r].q && rs[r].writes == ranks[r].writes && rs[r].nflushed == ranks[r].nflushed
    ensures PendingOf(rs, n) == PendingOf(ranks, n) && FlushedOf(rs, n) == FlushedOf(ranks, n)
    decreases n
  {
    if n > 0 {
      LoadAccounts(ranks, rs, n - 1);
      assert RecsFrom(rs[n - 1], 0) == RecsFrom(ranks[n - 1], 0);
    }
  }

  // ----- what a read and a close rely on -----

  lemma {:induction false} NothingFlushed(ranks: seq<Process>, n: nat)
    requires Counts(ranks) && n <= |ranks| && forall r :: 0 <= r < n ==> ranks[r].nflushed == 0
    ensures FlushedOf(ranks, n) == []
    decreases n
  {
    if n > 0 { NothingFlushed(ranks, n - 1); }
  }

  /** With clean metadata the metadata datasets record exactly the stored writes, each once. */
  lemma CleanRecordsAll(cfg: bool, share: bool, w: World, h: Hist)
    requires Inv(cfg, share, w, h) && !w.dirty
    ensures multiset(AllRecs(h.all)) == multiset(h.log)
  {
    hide Ordered, LogOk, MetaHolds, RankOk, IndexOk, AllRecs;
    NothingFlushed(w.ranks, |w.ranks|);
  }

  /** With clean metadata and nothing pending - after a close - every write ever issued is stored once and
      recorded once. */
  lemma ClosedRecordsAll(cfg: bool, share: bool, w: World, h: Hist)
    requires Inv(cfg, share, w, h) && !w.dirty && NothingPending(w.ranks)
    ensures multiset(WritesOf(h.log)) == multiset(IssuedWrites(h.issued))
    ensures multiset(WritesOf(AllRecs(h.all))) == multiset(IssuedWrites(h.issued))
  {
    hide Ordered, LogOk, MetaHolds, RankOk, IndexOk, AllRecs, WritesOf;
    CleanRecordsAll(cfg, share, w, h);
    NothingWaits(w.ranks, |w.ranks|);
    SameWrites(AllRecs(h.all), h.log);
  }

  lemma WritesWithout(b: seq<Rec>, i: nat)
    requires i < |b|
    ensures multiset(b[..i] + b[i + 1..]) == multiset(b) - multiset{b[i]}
    ensures multiset(WritesOf(b)) == multiset(WritesOf(b[..i] + b[i + 1..])) + multiset{b[i].write}
  {
    assert b == b[..i] + [b[i]] + b[i + 1..];
    assert WritesOf(b) == WritesOf(b[..i]) + [b[i].write] + WritesOf(b[i + 1..]);
    assert WritesOf(b[..i] + b[i + 1..]) == WritesOf(b[..i]) + WritesOf(b[i + 1..]);
  }

  lemma {:induction false} SameWrites(a: seq<Rec>, b: seq<Rec>)
    requires multiset(a) == multiset(b)
    ensures multiset(WritesOf(a)) == multiset(WritesOf(b))
    decreases |a|
  {
    hide WritesOf;
    if a == [] {
      assert |multiset(b)| == 0;
      assert b == [];
    } else {
      assert a[0] in multiset(b);
      var i :| 0 <= i < |b| && b[i] == a[0];
      WritesWithout(a, 0);
      WritesWithout(b, i);
      SameWrites(a[..0] + a[1..], b[..i] + b[i + 1..]);
    }
  }

  // ----- all runs -----

  datatype Action =
    | DoWrite(r: nat, x: Write, hit: Option<nat>)
    | DoExtent(d: nat, dims: Coord)
    | DoFlush(doff: nat)
    | DoMetaFlush
    | DoLoad(r: nat, index: seq<seq<Entry>>)

  datatype Moment = Moment(w: World, h: Hist)

  /** The steps: each with the guard under which the program takes it. */
  ghost predicate StepTo(cfg: bool, share: bool, a: Action, m: Moment, m': Moment)
  {
    Counts(m.w.ranks) &&
    match a
    case DoWrite(r, x, hit) =>
      r < |m.w.ranks| && r < |m.h.pend| && Admissible(cfg, share, m.w.ranks[r].q, m.w.ranks[r].writes, x, hit) &&
      x.did < |m.w.dsets| && x.dset == m.w.dsets[x.did] &&
      (hit.Some? ==> Fits64(m.w.ranks[r].q.reqs[hit.value].metaOff - m.w.ranks[r].q.mdsize)) &&
      m' == Moment(WriteStep(cfg, share, m.w, r, x, hit), Issued(m.h, r, x))
    case DoExtent(d, dims) =>
      d < |m.w.dsets| && |dims| == |m.w.dsets[d].dims| && m' == Moment(ExtentStep(m.w, d, dims), m.h)
    case DoFlush(doff) =>
      |m.w.file| <= doff && Fits64(doff + Before(m.w.ranks, |m.w.ranks|)) &&
      m' == if Before(m.w.ranks, |m.w.ranks|) == 0 then m
            else Moment(FlushStep(m.w, doff), Flushed(m.h, m.w.ranks, doff))
    case DoMetaFlush =>
      NothingPending(m.w.ranks) && AllFit(Table(SecsOf(m.w.ranks))) && SecsOk(cfg, share, SecsOf(m.w.ranks)) &&
      m' == Moment(MetaStep(cfg, share, m.w), if TotalSize(SecsOf(m.w.ranks)) == 0 then m.h else m.h.(all := m.h.all + [SecsOf(m.w.ranks)]))
    case DoLoad(r, index) =>
      r < |m.w.ranks| && |index| == |m.w.dsets| && (forall d :: 0 <= d < |index| ==> index[d] == OfDataset(EntriesOf(m.h.all), d)) &&
      m' == Moment(LoadStep(m.w, r, index), m.h)
  }

  lemma StepKeeps(cfg: bool, share: bool, a: Action, m: Moment, m': Moment)
    requires Inv(cfg, share, m.w, m.h) && StepTo(cfg, share, a, m, m')
    ensures Inv(cfg, share, m'.w, m'.h)
  {
    hide Inv, Issued, Flushed, WriteStep, ExtentStep, FlushStep, MetaStep, LoadStep, Admissible, NothingPending, Table, TotalSize, SecsOk, Before, FlushRecs;
    match a
    case DoWrite(r, x, hit) => WriteKeeps(cfg, share, m.w, m.h, r, x, hit);
    case DoExtent(d, dims) => ExtentKeeps(cfg, share, m.w, m.h, d, dims);
    case DoFlush(doff) => if Before(m.w.ranks, |m.w.ranks|) > 0 { FlushKeeps(cfg, share, m.w, m.h, doff); }
    case DoMetaFlush => MetaKeeps(cfg, share, m.w, m.h);
    case DoLoad(r, index) => LoadKeeps(cfg, share, m.w, m.h, r, index);
  }

  /** Safety over all runs: whatever sequence of writes, changes of extent, flushes, metadata flushes and loads
      is taken from a good state, every state on the way satisfies the invariant. */
  lemma {:induction false} RunKeeps(cfg: bool, share: bool, acts: seq<Action>, ms: seq<Moment>, i: nat)
    requires |ms| == |acts| + 1 && Inv(cfg, share, ms[0].w, ms[0].h)
    requires forall t :: 0 <= t < |acts| ==> StepTo(cfg, share, acts[t], ms[t], ms[t + 1])
    requires i < |ms|
    ensures Inv(cfg, share, ms[i].w, ms[i].h)
    decreases i
  {
    hide Inv, StepTo;
    if i > 0 {
      RunKeeps(cfg, share, acts, ms, i - 1);
      StepKeeps(cfg, share, acts[i - 1], ms[i - 1], ms[i]);
    }
  }
}
