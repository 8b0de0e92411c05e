/** The open file as an object: its methods are the steps of the protocol, each proved against the step
    function and the invariant; a read answers what a plain array would. */
module OpenFile {
  import opened Grid
  import opened Radix
  import opened Bytes
  import opened MetaCodec
  import opened EntryCodec
  import opened Dedup
  import opened Stream
  import opened IndexList
  import opened IndexSearch
  import opened Flush
  import opened Sections
  import opened WriteOrder
  import opened Protocol
  import opened PlainArray
  import opened ReadPath
  import ReadOrder
  import opened ReadRequest
  import WriteQueue

  ghost predicate Sized(dsets: seq<Dset>) { forall d :: 0 <= d < |dsets| ==> dsets[d].esize > 0 }

  /** What the next collective steps need: addresses and table entries that fit their fields. */
  ghost predicate Room(w: World, doff: nat)
    requires Counts(w.ranks)
  {
    |w.file| <= doff && Fits64(doff + Before(w.ranks, |w.ranks|)) && AllFit(Table(SecsOf(w.ranks)))
  }

  /** What a process contributes to a metadata dataset, packed request by request. */
  method PackSection(reqs: seq<Req>) returns (b: seq<byte>)
    requires forall i :: 0 <= i < |reqs| ==> ReqFits(reqs[i])
    ensures b == Section(reqs)
  {
    hide ReqFits, ReqBytes;
    b := [];
    var i := 0;
    assert reqs[..0] == [];
    while i < |reqs|
      invariant 0 <= i <= |reqs| && b == Section(reqs[..i])
    {
      assert reqs[..i + 1][..i] == reqs[..i];
      b := b + ReqBytes(reqs[i]);
      i := i + 1;
    }
    assert reqs[..i] == reqs;
  }

  lemma {:induction false} ConcatSnoc(cfg: bool, share: bool, secs: seq<Sec>, i: nat)
    requires SecsOk(cfg, share, secs) && i < |secs|
    ensures SecsOk(cfg, share, secs[..i]) && SecsOk(cfg, share, secs[..i + 1])
    ensures Concat(cfg, share, secs[..i + 1]) == Concat(cfg, share, secs[..i]) + SecBytes(cfg, share, secs[i])
  {
    hide SecOk, SecBytes;
    assert secs[..i + 1] == secs[..i] + [secs[i]];
    ConcatSplit(cfg, share, secs[..i], [secs[i]]);
    assert [secs[i]][1..] == [] && Concat(cfg, share, [secs[i]]) == SecBytes(cfg, share, secs[i]) + [];
  }

  /** The metadata dataset: the table, then every process's section. */
  method PackDataset(ranks: seq<Process>, ghost cfg: bool, ghost share: bool) returns (b: seq<byte>, total: nat)
    requires ranks != [] && SecsOk(cfg, share, SecsOf(ranks)) && AllFit(Table(SecsOf(ranks)))
    ensures b == Dataset(cfg, share, SecsOf(ranks)) && total == TotalSize(SecsOf(ranks))
  {
    hide SecOk, Table, Words, Section;
    ghost var secs := SecsOf(ranks);
    var sizes := seq(|ranks|, r requires 0 <= r < |ranks| => ranks[r].q.mdsize);
    var mdoffs, starts, end := BuildTable(sizes, secs);
    b := Words(mdoffs[..]);
    var r := 0;
    assert secs[..0] == [] && Words(Table(secs)) + [] == Words(Table(secs));
    while r < |ranks|
      invariant 0 <= r <= |ranks| && SecsOk(cfg, share, secs[..r]) && b == Words(Table(secs)) + Concat(cfg, share, secs[..r])
    {
      ConcatSnoc(cfg, share, secs, r);
      SecFits(cfg, share, secs[r]);
      var s := PackSection(ranks[r].q.reqs);
      ConcatAssoc(Words(Table(secs)), Concat(cfg, share, secs[..r]), s);
      b := b + s;
      r := r + 1;
    }
    assert secs[..r] == secs;
    total := end - TableSize(|ranks|);
  }

  /** The first half of a flush: offsets within every process's data, the exclusive prefix sums over the
      processes, and the bytes to write. */
  method PlaceRanks(ranks: seq<Process>) returns (local: seq<seq<Req>>, sizes: seq<nat>, total: nat, data: seq<byte>)
    requires Counts(ranks) && forall r :: 0 <= r < |ranks| ==> SizesKnown(ranks[r].q.reqs, ranks[r].writes)
    ensures |local| == |sizes| == |ranks| && total == Before(ranks, |ranks|) && data == AllData(ranks, |ranks|)
    ensures forall t :: 0 <= t < |ranks| ==> sizes[t] == Before(ranks, t)
    ensures forall t :: 0 <= t < |ranks| ==> local[t] == Placed(ranks[t].q.reqs, ranks[t].writes, ranks[t].nflushed, 0)
  {
    hide Placed, DataOf, AllData, Before, SizesKnown;
    FlushStart(ranks);
    sizes, local, total, data := [], [], 0, [];
    var r := 0;
    while r < |ranks|
      invariant 0 <= r <= |ranks| && |local| == |sizes| == r && total == Before(ranks, r) && data == AllData(ranks, r)
      invariant forall t :: 0 <= t < r ==> sizes[t] == Before(ranks, t)
      invariant forall t :: 0 <= t < r ==> local[t] == Placed(ranks[t].q.reqs, ranks[t].writes, ranks[t].nflushed, 0)
    {
      var rs, size := PlaceLocally(ranks[r].q.reqs, ranks[r].nflushed, ranks[r].writes);
      FlushSums(ranks, r);
      sizes, local := sizes + [total], local + [rs];
      data := data + DataOf(ranks[r].writes[ranks[r].nflushed..]);
      total := total + size;
      r := r + 1;
    }
  }

  /** The second half: offsets become addresses in the log dataset. */
  method RebaseRanks(ranks: seq<Process>, local: seq<seq<Req>>, sizes: seq<nat>, doff: nat) returns (rs: seq<Process>)
    requires Counts(ranks) && |local| == |sizes| == |ranks|
    requires forall t :: 0 <= t < |ranks| ==> sizes[t] == Before(ranks, t)
    requires forall t :: 0 <= t < |ranks| ==> local[t] == Placed(ranks[t].q.reqs, ranks[t].writes, ranks[t].nflushed, 0)
    ensures rs == FlushRanks(ranks, doff)
  {
    hide Placed, Before, FlushRanks;
    rs := [];
    var r := 0;
    while r < |ranks|
      invariant 0 <= r <= |ranks| && |rs| == r
      invariant forall t :: 0 <= t < r ==> rs[t] == FlushRank(ranks[t], doff + Before(ranks, t))
    {
      var reqs := Rebase(local[r], ranks[r].nflushed, doff + sizes[r], ranks[r].q.reqs, ranks[r].writes);
      rs := rs + [ranks[r].(q := ranks[r].q.(reqs := reqs), nflushed := |reqs|)];
      r := r + 1;
    }
    FlushedRanks(ranks, rs, doff);
  }

  /** With step encoding on, every dataset has the steps of its extent. */
  ghost predicate StepsOf(cfg: bool, dsets: seq<Dset>, dsteps: seq<seq<nat>>)
  {
    cfg ==> |dsteps| == |dsets| && forall d :: 0 <= d < |dsets| ==> dsteps[d] == Dsteps(dsets[d].dims)
  }

  /** The steps of an extent; a scalar has none. */
  method StepsFor(dims: Coord) returns (dsteps: seq<nat>)
    ensures dsteps == Dsteps(dims)
  {
    if |dims| == 0 { dsteps := []; } else { dsteps := ComputeDsteps(dims); }
  }

  method AllSteps(cfg: bool, dsets: seq<Dset>) returns (dsteps: seq<seq<nat>>)
    ensures StepsOf(cfg, dsets, dsteps)
  {
    dsteps := [];
    if cfg {
      while |dsteps| < |dsets|
        invariant |dsteps| <= |dsets| && forall d :: 0 <= d < |dsteps| ==> dsteps[d] == Dsteps(dsets[d].dims)
      {
        var steps := StepsFor(dsets[|dsteps|].dims);
        dsteps := dsteps + [steps];
      }
    }
  }

  /** Process rk with one more write: an entry is appended, as a reference exactly if an equal long one is in the queue,
      and the table holds the long entries kept in full. */
  ghost predicate WroteOne(cfg: bool, share: bool, rk: Process, rk': Process, x: Write)
  {
    var q, q' := rk.q, rk'.q;
    WriteOk(cfg, x) && rk' == rk.(q := q', writes := rk.writes + [x]) && |q'.reqs| == |q.reqs| + 1 && q'.reqs[..|q.reqs|] == q.reqs &&
    TableHolds(share, q') && WriteQueue.Entered(share, q, NewReq(cfg, x, q.mdsize, 0), q'.reqs[|q.reqs|])
  }

  lemma WroteOneIs(cfg: bool, share: bool, rk: Process, rk': Process, x: Write)
    requires WriteOk(cfg, x) && rk' == rk.(q := rk'.q, writes := rk.writes + [x])
    requires |rk'.q.reqs| == |rk.q.reqs| + 1 && rk'.q.reqs[..|rk.q.reqs|] == rk.q.reqs && TableHolds(share, rk'.q)
    requires WriteQueue.Entered(share, rk.q, NewReq(cfg, x, rk.q.mdsize, 0), rk'.q.reqs[|rk.q.reqs|])
    ensures WroteOne(cfg, share, rk, rk', x)
  {
    hide WriteOk, NewReq, TableHolds, WriteQueue.Entered;
  }

  /** Queues, tables and pending writes are gone, and no index is valid any more. */
  ghost predicate AllEmptied(was: seq<Process>, now: seq<Process>)
  {
    |now| == |was| && forall r :: 0 <= r < |now| ==> now[r] == Process(EMPTY, [], 0, false, was[r].index)
  }

  class LogFile {
    const cfg: bool
    const share: bool
    const limit: Option<nat>   // size of the metadata buffer, if it is limited
    var dsets: seq<Dset>
    var dsteps: seq<seq<nat>>  // of every dataset, if step encoding is on
    var ranks: seq<Process>
    var file: seq<byte>
    var mds: seq<seq<byte>>
    var dirty: bool
    ghost var hist: Hist

    function State(): World
      reads this
    {
      World(dsets, ranks, file, mds, dirty)
    }

    ghost function Now(): Moment
      reads this
    {
      Moment(State(), hist)
    }

    ghost predicate Valid()
      reads this
    {
      Inv(cfg, share, State(), hist) && Sized(dsets) && StepsOf(cfg, dsets, dsteps)
    }

    constructor (cfg: bool, share: bool, limit: Option<nat>, dsets: seq<Dset>, np: nat)
      requires np > 0 && Sized(dsets)
      ensures this.cfg == cfg && this.share == share && this.limit == limit && this.dsets == dsets && |ranks| == np && Valid()
      ensures hist == NoHist(np) && file == [] && mds == [] && !dirty
    {
      hide Inv, NoHist;
      var steps := AllSteps(cfg, dsets);
      this.cfg, this.share, this.limit, this.dsets, dsteps := cfg, share, limit, dsets, steps;
      ranks, file, mds, dirty, hist := FreshRanks(np), [], [], false, NoHist(np);
      new;
      FreshInv(cfg, share, State(), np);
    }

    /** A write call on process r; an empty selection is no write. */
    method Write(r: nat, x: Write) returns (hit: Option<nat>)
      requires Valid() && r < |ranks| && Fits64(ranks[r].q.mdsize)
      requires x.blocks != [] ==> x.did < |dsets| && x.dset == dsets[x.did] && WriteOk(cfg, x)
      requires x.blocks != [] ==> WriteQueue.NoFalseHit(cfg, ranks[r].q, ranks[r].writes, x)
      modifies this
      ensures Valid()
      ensures x.blocks == [] ==> State() == old(State()) && hist == old(hist)
      ensures x.blocks != [] ==> StepTo(cfg, share, DoWrite(r, x, hit), old(Now()), Now())
      ensures x.blocks != [] ==> |ranks| == |old(ranks)| && ranks == old(ranks)[r := ranks[r]] && WroteOne(cfg, share, old(ranks[r]), ranks[r], x)
      ensures dsets == old(dsets) && dsteps == old(dsteps) && file == old(file) && mds == old(mds) && dirty == old(dirty)
    {
      hide Inv, StepTo, WriteStep, WriteOk, WriteQueue.NoFalseHit, Stored, Enqueue, WroteOne, TableHolds, WriteQueue.Entered;
      hit := None;
      if |x.blocks| == 0 { return; }
      ghost var m := Now();
      QueueOf(cfg, share, m.w, hist, r);
      var q;
      q, hit := WriteQueue.Enter(cfg, share, ranks[r].q, ranks[r].writes, x, if cfg then dsteps[x.did] else []);
      WriteQueue.GuardedHit(cfg, share, ranks[r].q, ranks[r].writes, x, hit);
      WriteIsStep(cfg, share, m, r, x, hit, q);
      WroteOneIs(cfg, share, ranks[r], ranks[r].(q := q, writes := ranks[r].writes + [x]), x);
      ranks := ranks[r := ranks[r].(q := q, writes := ranks[r].writes + [x])];
      hist := Issued(hist, r, x);
    }

    /** A change of a dataset's extent; the steps are recomputed, so that they are the numbers of elements below each
        dimension of the new extent. */
    method SetExtent(d: nat, dims: Coord)
      requires Valid() && d < |dsets| && |dims| == |dsets[d].dims|
      modifies this
      ensures Valid() && State() == ExtentStep(old(State()), d, dims) && hist == old(hist)
      ensures |dsets| == old(|dsets|) && dsets[d] == Dset(dims, old(dsets[d].unlimited), old(dsets[d].esize))
      ensures forall e :: 0 <= e < |dsets| && e != d ==> dsets[e] == old(dsets[e])
      ensures ranks == old(ranks) && file == old(file) && mds == old(mds) && dirty == old(dirty)
      ensures cfg ==> |dsteps| == |dsets| && |dsteps[d]| == |dims| && forall k :: 0 <= k < |dims| ==> dsteps[d][k] == Prod(dims[k + 1..])
      ensures cfg ==> forall e :: 0 <= e < |dsets| && e != d ==> dsteps[e] == old(dsteps[e])
    {
      hide Inv;
      ExtentKeeps(cfg, share, State(), hist, d, dims);
      dsets := dsets[d := dsets[d].(dims := dims)];
      if cfg {
        var steps := StepsFor(dims);
        dsteps := dsteps[d := steps];
        forall k | 0 <= k < |dims| ensures steps[k] == Prod(dims[k + 1..]) { DstepsAt(dims, k); }
      }
    }

    /** Greatest number of pending writes of any process. */
    method PendingWrites() returns (n: nat)
      requires Counts(ranks)
      ensures n == 0 <==> NothingPending(ranks)
      ensures forall r :: 0 <= r < |ranks| ==> |ranks[r].q.reqs| - ranks[r].nflushed <= n
      ensures n > 0 ==> exists r :: 0 <= r < |ranks| && n == |ranks[r].q.reqs| - ranks[r].nflushed
    {
      n := 0;
      var r := 0;
      while r < |ranks|
        invariant 0 <= r <= |ranks| && (n == 0 <==> forall t :: 0 <= t < r ==> ranks[t].nflushed == |ranks[t].writes|)
        invariant forall t :: 0 <= t < r ==> |ranks[t].q.reqs| - ranks[t].nflushed <= n
        invariant n > 0 ==> exists t :: 0 <= t < r && n == |ranks[t].q.reqs| - ranks[t].nflushed
      {
        var num := |ranks[r].q.reqs| - ranks[r].nflushed;
        if num > n { n := num; }
        r := r + 1;
      }
    }

    /** The collective flush. */
    method Flush(doff: nat)
      requires Valid() && Room(State(), doff)
      modifies this
      ensures Valid() && Counts(old(ranks)) && State() == FlushStep(old(State()), doff) && NothingPending(ranks)
      ensures hist == if Before(old(ranks), |old(ranks)|) == 0 then old(hist) else Flushed(old(hist), old(ranks), doff)
      ensures dsets == old(dsets) && dsteps == old(dsteps) && mds == old(mds) && |ranks| == |old(ranks)|
    {
      hide Inv, Placed, AllData, FlushRecs, Before, Flushed, Room, FlushRanks, Zeros, SizesKnown;
      ghost var w := State();
      InvCounts(cfg, share, w, hist);
      RoomLeft(w, doff);
      forall r | 0 <= r < |ranks| ensures SizesKnown(ranks[r].q.reqs, ranks[r].writes) { QueueSizes(cfg, share, w, hist, r); }
      var local, sizes, total, data := PlaceRanks(ranks);
      if total > 0 {
        FlushKeeps(cfg, share, w, hist, doff);
        ranks := RebaseRanks(ranks, local, sizes, doff);
        file := file + Zeros(doff - |file|) + data;
        dirty := true;
        hist := Flushed(hist, w.ranks, doff);
      } else {
        NothingToFlush(cfg, share, w, hist);
      }
    }

    /** The collective metadata flush, enabled only when nothing is pending. */
    method MetaFlush()
      requires Valid() && NothingPending(ranks) && AllFit(Table(SecsOf(ranks)))
      modifies this
      ensures Valid() && SecsOk(cfg, share, SecsOf(old(ranks))) && State() == MetaStep(cfg, share, old(State()))
      ensures hist == if TotalSize(SecsOf(old(ranks))) == 0 then old(hist) else old(hist).(all := old(hist).all + [SecsOf(old(ranks))])
      ensures NothingPending(ranks) && !dirty && hist == old(hist).(all := hist.all)
      ensures dsets == old(dsets) && dsteps == old(dsteps) && file == old(file) && old(mds) <= mds && |ranks| == |old(ranks)|
      ensures AllEmptied(old(ranks), ranks)
    {
      hide Inv, SecsOk, Table, Dataset, TotalSize, NothingPending;
      ghost var w := State();
      MetaKeeps(cfg, share, w, hist);
      InvCounts(cfg, share, w, hist);
      var ds, total := PackDataset(ranks, cfg, share);
      if total > 0 {
        mds := mds + [ds];
        hist := hist.(all := hist.all + [SecsOf(ranks)]);
      }
      var was := ranks;
      ranks := seq(|was|, r requires 0 <= r < |was| => Process(EMPTY, [], 0, false, was[r].index));
      dirty := false;
      assert ranks == ClearRanks(w.ranks);
    }

    /** Process r loads all metadata datasets into its index. */
    method LoadIndex(r: nat)
      requires Valid() && r < |ranks|
      modifies this
      ensures Valid() && hist == old(hist) && |ranks| == |old(ranks)| && ranks[r].idxvalid
      ensures State() == LoadStep(old(State()), r, ranks[r].index)
      ensures dsets == old(dsets) && dsteps == old(dsteps) && file == old(file) && mds == old(mds) && dirty == old(dirty)
      ensures ranks == old(ranks)[r := old(ranks[r]).(idxvalid := true, index := ranks[r].index)]
    {
      hide Inv, ParseList, EntriesOf, AllEntries, MetaHolds, OfDataset;
      ghost var w := State();
      InvMeta(cfg, share, w, hist);
      var idx := new ListIndex(dsets, share);
      var i := 0;
      NothingYet(hist.all);
      while i < |mds|
        invariant 0 <= i <= |mds| && State() == w && hist == old(hist) && dsteps == old(dsteps)
        invariant idx.dsets == dsets && idx.share == share && fresh(idx) && |idx.idxs| == |dsets|
        invariant forall d :: 0 <= d < |dsets| ==> idx.idxs[d] == OfDataset(EntriesOf(hist.all[..i]), d)
      {
        ghost var was := idx.idxs;
        DatasetReads(cfg, share, w.dsets, hist.all, w.mds, i);
        var nsec := Get64(mds[i], 0);
        var buf := mds[i][8 * (nsec + 1)..];
        var ok := idx.ParseBlock(buf, AllEntries(hist.all[i]));
        IndexGrows(hist.all, i, was, idx.idxs);
        i := i + 1;
      }
      assert hist.all[..i] == hist.all;
      LoadKeeps(cfg, share, w, hist, r, idx.idxs);
      ranks := ranks[r := ranks[r].(idxvalid := true, index := idx.idxs)];
    }

    /** What a blocking read does first: flush pending writes, flush dirty metadata, and, if the metadata buffer
        is not limited, load the index unless it is valid. */
    method Settle(r: nat, doff: nat)
      requires Valid() && r < |ranks| && Counts(ranks) && Room(State(), doff)
      modifies this
      ensures Valid() && NothingPending(ranks) && !dirty && dsets == old(dsets)
      ensures hist.issued == old(hist).issued && old(hist).log <= hist.log
      ensures |ranks| == |old(ranks)| && (limit.None? ==> ranks[r].idxvalid)
    {
      hide Inv, Room, Table, TotalSize, SecsOk, Before, FlushRecs, MetaHolds, AllData, WriteLog, Dataset, NothingPending;
      var num := PendingWrites();
      TableKept(State(), doff);
      if num > 0 { Flush(doff); }
      if dirty { MetaFlush(); }
      if limit.None? && !ranks[r].idxvalid {
        ghost var was := ranks;
        LoadIndex(r);
        LoadPending(was, ranks, r);
      }
    }

    /** A blocking read of process r, after what was pending has been flushed. Every element gets the bytes that
        the array holds: those of the covering write that is behind all other covering ones, by flush, process and
        program order; elements never written get the fill value. A canonical request is read through a legal file
        type. The read fails only where the partial loader is asked for the first metadata dataset of a file that
        has none. */
    method Read(r: nat, did: nat, qs: seq<Block>, fill: Option<seq<byte>>, doff: nat, buf: array<byte>) returns (ok: bool)
      requires Valid() && r < |ranks| && did < |dsets| && Counts(ranks) && Room(State(), doff)
      requires Rank(|dsets[did].dims|, qs) && forall i, j :: 0 <= i < j < |qs| ==> BoxesApart(qs[i], qs[j])
      requires buf.Length == SelSize(qs) * dsets[did].esize && (fill.Some? ==> |fill.value| == dsets[did].esize)
      modifies this, buf
      ensures Valid() && NothingPending(ranks) && !dirty && dsets == old(dsets)
      ensures hist.issued == old(hist).issued && old(hist).log <= hist.log
      ensures ok <==> limit.None? || mds != []
      ensures ok ==> AnsweredPlainly(hist.issued, did, dsets[did], qs, fill, old(buf[..]), buf[..])
      ensures ok && ReadOrder.InSequence(|dsets[did].dims|, qs) ==>
        ViewsLegal(|dsets[did].dims|, dsets[did].esize, OfDataset(EntriesOf(hist.all), did), qs)
    {
      hide Inv, SearchList, View, Answered, BoxesApart, PlainByte, ArrayByte, ViewsLegal, ReadOrder.InSequence, Room, WritesOf, Readable, Ranked, NothingPending, EntriesOf, OfDataset, MetaHolds,
        IssuedWrites, AllShaped, AnsweredPlainly, LogInOrder;
      Settle(r, doff);
      Answerable(cfg, share, State(), hist, did, qs);
      InvMeta(cfg, share, State(), hist);
      ghost var es := OfDataset(EntriesOf(hist.all), did);
      var intersecs;
      if limit.None? {
        IndexIsValid(cfg, share, State(), hist, r);
        var idx := new ListIndex(dsets, share);
        idx.idxs := ranks[r].index;
        intersecs := idx.Search(did, qs);
      } else {
        if |mds| == 0 { return false; }
        intersecs := BoundedSearch(cfg, share, dsets, mds, limit.value, did, qs, hist.all);
      }
      Answer(es, intersecs, did, qs, fill, buf);
      ok := true;
    }

    /** Reads what a search found into the buffer. */
    method Answer(ghost es: seq<Entry>, intersecs: seq<Isect>, did: nat, qs: seq<Block>, fill: Option<seq<byte>>, buf: array<byte>)
      requires Valid() && NothingPending(ranks) && !dirty && did < |dsets| && es == OfDataset(EntriesOf(hist.all), did)
      requires Ranked(|dsets[did].dims|, es) && Rank(|dsets[did].dims|, qs)
      requires multiset(intersecs) == multiset(SearchList(|dsets[did].dims|, dsets[did].esize, es, qs, 0))
      requires Rank(|dsets[did].dims|, qs) && forall i, j :: 0 <= i < j < |qs| ==> BoxesApart(qs[i], qs[j])
      requires buf.Length == SelSize(qs) * dsets[did].esize && (fill.Some? ==> |fill.value| == dsets[did].esize)
      modifies buf
      ensures AnsweredPlainly(hist.issued, did, dsets[did], qs, fill, old(buf[..]), buf[..])
      ensures ReadOrder.InSequence(|dsets[did].dims|, qs) ==> ViewsLegal(|dsets[did].dims|, dsets[did].esize, es, qs)
    {
      hide Inv, SearchList, View, Answered, BoxesApart, PlainByte, ArrayByte, OfDataset, EntriesOf, AllRecs, Searchable, Ranked, ViewsLegal, PlannedAs,
        ReadOrder.InSequence, ReadTypes.GroupsOk;
      StateView(cfg, share, State(), hist, did);
      ghost var n, esize := |dsets[did].dims|, dsets[did].esize;
      ghost var rs := RecsOfDid(AllRecs(hist.all), did);
      ViewReadable(n, esize, did, file, hist.log, es, rs, qs);
      ViewShaped(n, esize, did, file, hist.log, es, rs);
      ReadableRanks(n, esize, es, qs);
      InvOrdered(cfg, share, State(), hist);
      IssuedShaped(ranks, hist);
      ghost var was := buf[..];
      ghost var bs, plan := PerformRead(|dsets[did].dims|, dsets[did].esize, es, qs, intersecs, fill, file, buf);
      forall i: nat, x: Coord, k: nat | i < |qs| && InBoxOk(n, qs[i], x) && k < esize
        ensures Plainly(hist.issued, did, esize, qs, fill, was, buf[..], i, x, k)
      {
        ReadIsPlain(n, esize, did, file, hist.log, es, rs, qs, was, fill, buf[..], i, x, k);
        LogIsArray(ranks, hist, did, x, k);
      }
      if ReadOrder.InSequence(n, qs) { InSequenceViews(n, esize, es, qs); }
    }

    /** Close: flush, then flush the metadata. Every write issued is then stored once and recorded once. */
    method Close(doff: nat)
      requires Valid() && Counts(ranks) && Room(State(), doff)
      modifies this
      ensures Valid() && NothingPending(ranks) && !dirty && hist.issued == old(hist).issued && old(hist).log <= hist.log
      ensures LogInOrder(hist) && multiset(WritesOf(hist.log)) == multiset(IssuedWrites(hist.issued))
      ensures multiset(WritesOf(AllRecs(hist.all))) == multiset(IssuedWrites(hist.issued))
    {
      hide Inv, Room, Table, TotalSize, SecsOk, Before, FlushRecs, AllRecs, WritesOf, IssuedWrites, LogInOrder, PendBefore;
      TableKept(State(), doff);
      Flush(doff);
      MetaFlush();
      ClosedRecordsAll(cfg, share, State(), hist);
      InvOrdered(cfg, share, State(), hist);
    }
  }

  /** The buffer holds the array for every byte of every element of every block of the request. */
  ghost predicate AnsweredPlainly(cs: seq<Issue>, did: nat, d: Dset, qs: seq<Block>, fill: Option<seq<byte>>, was: seq<byte>, buf: seq<byte>)
  {
    AllShaped(IssuedWrites(cs)) && Rank(|d.dims|, qs) &&
    forall i: nat, x: Coord, k: nat :: i < |qs| && InBoxOk(|d.dims|, qs[i], x) && k < d.esize ==>
      Plainly(cs, did, d.esize, qs, fill, was, buf, i, x, k)
  }

  /** The buffer holds, for byte k of the element at x of request block i, what the array holds. */
  ghost predicate Plainly(cs: seq<Issue>, did: nat, esize: nat, qs: seq<Block>, fill: Option<seq<byte>>, was: seq<byte>, buf: seq<byte>,
      i: nat, x: Coord, k: nat)
    requires AllShaped(IssuedWrites(cs)) && i < |qs| && |qs[i].start| == |qs[i].count| && InBox(x, qs[i])
  {
    var a := BufferAt(qs, esize, 0, i, x, k);
    0 <= a < |buf| == |was| &&
    buf[a] == match ArrayByte(cs, did, x, k)
              case Some(b) => b
              case None => if fill.Some? && k < |fill.value| then fill.value[k] else was[a]
  }

  // ----- facts about states -----

  /** Nothing has happened yet. */
  function NoHist(np: nat): Hist { Hist([], 0, [], [], seq(np, r => []), []) }

  function FreshRanks(np: nat): (rs: seq<Process>)
    ensures |rs| == np
  {
    seq(np, r => Process(EMPTY, [], 0, false, []))
  }

  lemma FreshInv(cfg: bool, share: bool, w: World, np: nat)
    requires np > 0 && w.ranks == FreshRanks(np) && w.file == [] && w.mds == [] && !w.dirty
    ensures Inv(cfg, share, w, NoHist(np))
  {
    hide RankOk, Ordered;
    assert Counts(w.ranks);
    forall r | 0 <= r < |w.ranks| ensures RankOk(cfg, share, w.dsets, w.ranks[r]) { FreshRank(cfg, share, w.dsets); }
    NoRecs(w.ranks, |w.ranks|);
    FreshOrder(w.ranks, np);
    assert WritesOf([]) == [] && IssuedWrites([]) == [];
  }

  lemma FreshRank(cfg: bool, share: bool, dsets: seq<Dset>)
    ensures RankOk(cfg, share, dsets, Process(EMPTY, [], 0, false, []))
  {
  }

  lemma FreshOrder(ranks: seq<Process>, np: nat)
    requires Counts(ranks) && |ranks| == np && forall r :: 0 <= r < np ==> ranks[r].writes == []
    ensures Ordered(ranks, NoHist(np))
  {
    forall r | 0 <= r < np ensures PendInOrder(NoHist(np), ranks[r], r) { NothingWaiting(NoHist(np), ranks[r], r); }
  }

  lemma {:induction false} NoRecs(ranks: seq<Process>, n: nat)
    requires Counts(ranks) && n <= |ranks| && forall r :: 0 <= r < |ranks| ==> ranks[r].writes == []
    ensures FlushedOf(ranks, n) == [] && PendingOf(ranks, n) == []
    decreases n
  {
    if n > 0 {
      NoRecs(ranks, n - 1);
      assert ranks[n - 1].writes == [] && Pending(ranks[n - 1]) == [] && RecsFrom(ranks[n - 1], 0) == [];
    }
  }

  lemma QueueOf(cfg: bool, share: bool, w: World, h: Hist, r: nat)
    requires Inv(cfg, share, w, h) && r < |w.ranks|
    ensures Stored(cfg, share, w.ranks[r].q, w.ranks[r].writes) && w.ranks[r].nflushed <= |w.ranks[r].writes| == |w.ranks[r].q.reqs|
  {
    hide Stored, Typed, MetaHolds, LogOk, Accounted, FlagsOk;
    assert RankOk(cfg, share, w.dsets, w.ranks[r]);
  }

  lemma WriteIsStep(cfg: bool, share: bool, m: Moment, r: nat, x: Write, hit: Option<nat>, q: Queue)
    requires Inv(cfg, share, m.w, m.h) && r < |m.w.ranks| && WriteOk(cfg, x)
    requires Admissible(cfg, share, m.w.ranks[r].q, m.w.ranks[r].writes, x, hit)
    requires Dedup.Found(m.w.ranks[r].q, NewReq(cfg, x, m.w.ranks[r].q.mdsize, 0), hit)
    requires hit.Some? ==> Fits64(m.w.ranks[r].q.reqs[hit.value].metaOff - m.w.ranks[r].q.mdsize)
    requires q == Enqueue(cfg, share, m.w.ranks[r].q, x, hit)
    requires x.did < |m.w.dsets| && x.dset == m.w.dsets[x.did]
    ensures r < |m.h.pend|
    ensures var rk := m.w.ranks[r];
            var w := m.w.(ranks := m.w.ranks[r := rk.(q := q, writes := rk.writes + [x])]);
            Inv(cfg, share, w, Issued(m.h, r, x)) && StepTo(cfg, share, DoWrite(r, x, hit), m, Moment(w, Issued(m.h, r, x)))
  {
    hide Inv, WriteOk, NewReq, Enqueue, Dedup.Found, Admissible, Issued;
    InvCounts(cfg, share, m.w, m.h);
    WriteKeeps(cfg, share, m.w, m.h, r, x, hit);
  }

  lemma InvCounts(cfg: bool, share: bool, w: World, h: Hist)
    requires Inv(cfg, share, w, h)
    ensures Counts(w.ranks) && w.ranks != []
  {
  }

  lemma InvOrdered(cfg: bool, share: bool, w: World, h: Hist)
    requires Inv(cfg, share, w, h) && NothingPending(w.ranks)
    ensures Counts(w.ranks) && Ordered(w.ranks, h) && LogInOrder(h) && forall r :: 0 <= r < |w.ranks| ==> Pending(w.ranks[r]) == []
  {
    hide Ordered, RankOk, MetaHolds, LogOk, Accounted, FlagsOk, LogInOrder;
    OrderedLog(w.ranks, h);
  }

  lemma OrderedLog(ranks: seq<Process>, h: Hist)
    requires Counts(ranks) && Ordered(ranks, h)
    ensures LogInOrder(h)
  {
    hide LogInOrder;
  }

  lemma InvMeta(cfg: bool, share: bool, w: World, h: Hist)
    requires Inv(cfg, share, w, h)
    ensures MetaHolds(cfg, share, w.dsets, h.all, w.mds) && |h.all| == |w.mds|
  {
  }

  lemma QueueSizes(cfg: bool, share: bool, w: World, h: Hist, r: nat)
    requires Inv(cfg, share, w, h) && r < |w.ranks|
    ensures SizesKnown(w.ranks[r].q.reqs, w.ranks[r].writes) && w.ranks[r].nflushed <= |w.ranks[r].q.reqs|
  {
    hide Inv, Stored, WithOffsets;
    QueueOf(cfg, share, w, h, r);
    var q, ws := w.ranks[r].q, w.ranks[r].writes;
    StoredTells(cfg, share, q, ws);
    forall i | 0 <= i < |ws| ensures q.reqs[i].hdr.fsize == |ws[i].data| { assert AllExpected(q, ws, 0)[i] == Expected(q, ws, 0 + i); }
  }

  lemma FlushedRanks(ranks: seq<Process>, rs: seq<Process>, doff: int)
    requires Counts(ranks) && |rs| == |ranks| && forall t :: 0 <= t < |rs| ==> rs[t] == FlushRank(ranks[t], doff + Before(ranks, t))
    ensures rs == FlushRanks(ranks, doff)
  {
    hide FlushRank, Before;
  }

  lemma RoomLeft(w: World, doff: nat)
    requires Counts(w.ranks) && Room(w, doff)
    ensures |w.file| <= doff && Fits64(doff + Before(w.ranks, |w.ranks|))
  {
    hide Before, Table;
  }

  lemma FlushStart(ranks: seq<Process>)
    requires Counts(ranks)
    ensures Before(ranks, 0) == 0 && AllData(ranks, 0) == []
  {
  }

  lemma FlushSums(ranks: seq<Process>, r: nat)
    requires Counts(ranks) && r < |ranks|
    ensures Before(ranks, r + 1) == Before(ranks, r) + DataLen(ranks[r].writes[ranks[r].nflushed..])
    ensures AllData(ranks, r + 1) == AllData(ranks, r) + DataOf(ranks[r].writes[ranks[r].nflushed..])
  {
  }

  lemma NothingToFlush(cfg: bool, share: bool, w: World, h: Hist)
    requires Inv(cfg, share, w, h) && Sized(w.dsets) && Before(w.ranks, |w.ranks|) == 0
    ensures NothingPending(w.ranks)
  {
    hide RankOk, MetaHolds, LogOk, Accounted, Ordered, FlagsOk, Before;
    NoDataNothingPending(cfg, share, w.dsets, w.ranks, |w.ranks|);
  }

  lemma NothingYet(all: seq<seq<Sec>>)
    ensures all[..0] == [] && EntriesOf([]) == [] && forall d :: OfDataset([], d) == []
  {
  }

  lemma DatasetReads(cfg: bool, share: bool, dsets: seq<Dset>, all: seq<seq<Sec>>, mds: seq<seq<byte>>, i: nat)
    requires MetaHolds(cfg, share, dsets, all, mds) && i < |mds|
    ensures |mds[i]| >= 8 && Get64(mds[i], 0) >= 0 && 8 * (Get64(mds[i], 0) + 1) <= |mds[i]|
    ensures var buf := mds[i][8 * (Get64(mds[i], 0) + 1)..]; ParseList(share, dsets, buf, 0, |buf|, map[]) == Some(AllEntries(all[i]))
  {
    hide SecsOk, Table, AllTyped, Dataset, ParseList, AllEntries;
    assert Stands(cfg, share, dsets, all[i], mds[i]);
    DatasetRoundTrip(cfg, share, dsets, all[i]);
  }

  lemma IndexGrows(all: seq<seq<Sec>>, i: nat, was: seq<seq<Entry>>, now: seq<seq<Entry>>)
    requires i < |all| && Grown(was, now, AllEntries(all[i]))
    requires forall d :: 0 <= d < |was| ==> was[d] == OfDataset(EntriesOf(all[..i]), d)
    ensures forall d :: 0 <= d < |now| ==> now[d] == OfDataset(EntriesOf(all[..i + 1]), d)
  {
    hide OfDataset, EntriesOf, AllEntries;
    EntriesOfSnoc(all, i);
    forall d | 0 <= d < |now| ensures now[d] == OfDataset(EntriesOf(all[..i + 1]), d)
    {
      OfDatasetConcat(EntriesOf(all[..i]), AllEntries(all[i]), d);
    }
  }

  /** A flush does not change the sizes of the sections. */
  lemma TableKept(w: World, doff: nat)
    requires Counts(w.ranks) && Room(w, doff)
    ensures |w.file| <= doff && AllFit(Table(SecsOf(w.ranks))) && AllFit(Table(SecsOf(FlushStep(w, doff).ranks)))
  {
    hide Before, AllData, Placed;
    var a, b := SecsOf(w.ranks), SecsOf(FlushStep(w, doff).ranks);
    forall r | 0 <= r <= |a| ensures TotalSize(a[..r]) == TotalSize(b[..r])
    {
      SameSizes(a[..r], b[..r]);
    }
    assert Table(a) == Table(b);
  }

  lemma {:induction false} SameSizes(a: seq<Sec>, b: seq<Sec>)
    requires |a| == |b| && forall i :: 0 <= i < |a| ==> a[i].q.mdsize == b[i].q.mdsize
    ensures TotalSize(a) == TotalSize(b)
    decreases |a|
  {
    if a != [] { SameSizes(a[1..], b[1..]); }
  }

  lemma LoadPending(a: seq<Process>, b: seq<Process>, r: nat)
    requires r < |a| == |b| && b == a[r := a[r].(idxvalid := true, index := b[r].index)] && NothingPending(a)
    ensures NothingPending(b)
  {
  }

  /** The entries of a dataset can be searched. */
  lemma Answerable(cfg: bool, share: bool, w: World, h: Hist, did: nat, qs: seq<Block>)
    requires Inv(cfg, share, w, h) && !w.dirty && did < |w.dsets| && Sized(w.dsets) && Rank(|w.dsets[did].dims|, qs)
    requires NothingPending(w.ranks) && forall i, j :: 0 <= i < j < |qs| ==> BoxesApart(qs[i], qs[j])
    ensures Ranked(|w.dsets[did].dims|, OfDataset(EntriesOf(h.all), did)) && AllShaped(IssuedWrites(h.issued))
  {
    hide Inv, View, BoxesApart, OfDataset, EntriesOf, AllRecs, Readable, Ranked, RecsOfDid, NothingPending, Ordered, LogInOrder, IssuedWrites;
    StateView(cfg, share, w, h, did);
    var n, esize, es := |w.dsets[did].dims|, w.dsets[did].esize, OfDataset(EntriesOf(h.all), did);
    ViewReadable(n, esize, did, w.file, h.log, es, RecsOfDid(AllRecs(h.all), did), qs);
    ReadableRanks(n, esize, es, qs);
    ViewShaped(n, esize, did, w.file, h.log, es, RecsOfDid(AllRecs(h.all), did));
    InvOrdered(cfg, share, w, h);
    IssuedShaped(w.ranks, h);
  }

  lemma IndexIsValid(cfg: bool, share: bool, w: World, h: Hist, r: nat)
    requires Inv(cfg, share, w, h) && r < |w.ranks| && w.ranks[r].idxvalid
    ensures |w.ranks[r].index| == |w.dsets| && forall d :: 0 <= d < |w.dsets| ==> w.ranks[r].index[d] == OfDataset(EntriesOf(h.all), d)
  {
    hide MetaHolds, LogOk, Accounted, QueuesOk, OfDataset, EntriesOf;
    assert IndexOk(w.ranks[r], h.all, |w.dsets|);
  }

  lemma ViewShaped(n: nat, esize: nat, did: nat, file: seq<byte>, log: seq<Rec>, es: seq<Entry>, rs: seq<Rec>)
    requires View(n, esize, did, file, log, es, rs)
    ensures AllShaped(WritesOf(log))
  {
  }
}
