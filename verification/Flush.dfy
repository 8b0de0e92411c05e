/** Flush: every process places its pending requests behind one another, an exclusive prefix sum over the
    processes places the processes, and a fresh log dataset takes the data. */
module Flush {
  import opened Bytes
  import opened MetaCodec
  import opened EntryCodec
  import opened Dedup
  import opened Stream

  /** A process's side of an open file. Request i of the queue carries the data of write i. */
  datatype Process = Process(q: Queue, writes: seq<Write>, nflushed: nat, idxvalid: bool, index: seq<seq<Entry>>)

  /** A write and the file address of its data. */
  datatype Rec = Rec(write: Write, foff: int)

  function DataLen(ws: seq<Write>): nat
    decreases |ws|
  {
    if ws == [] then 0 else |ws[0].data| + DataLen(ws[1..])
  }

  function DataOf(ws: seq<Write>): (bs: seq<byte>)
    ensures |bs| == DataLen(ws)
    decreases |ws|
  {
    if ws == [] then [] else ws[0].data + DataOf(ws[1..])
  }

  lemma {:induction false} DataLenSnoc(ws: seq<Write>, k: nat)
    requires k < |ws|
    ensures DataLen(ws[..k + 1]) == DataLen(ws[..k]) + |ws[k].data|
    decreases k
  {
    if k == 0 {
      assert ws[..1][1..] == [] && ws[..0] == [];
    } else {
      DataLenSnoc(ws[1..], k - 1);
      assert ws[..k + 1][1..] == ws[1..][..k] && ws[..k][1..] == ws[1..][..k - 1];
    }
  }

  function AtOffset(r: Req, foff: int): Req { r.(hdr := r.hdr.(foff := foff)) }

  /** The requests with those from number n on placed one behind the other from `off` on. */
  function Placed(reqs: seq<Req>, ws: seq<Write>, n: nat, off: int): (rs: seq<Req>)
    requires |reqs| == |ws| && n <= |ws|
    ensures |rs| == |reqs|
  {
    seq(|reqs|, i requires 0 <= i < |reqs| => if i < n then reqs[i] else AtOffset(reqs[i], off + DataLen(ws[n..][..i - n])))
  }

  ghost predicate SizesKnown(reqs: seq<Req>, ws: seq<Write>)
  {
    |reqs| == |ws| && forall i :: 0 <= i < |reqs| ==> reqs[i].hdr.fsize == |ws[i].data|
  }

  /** The gathering loop: offsets relative to the process's own data. */
  method PlaceLocally(reqs: seq<Req>, nflushed: nat, ghost ws: seq<Write>) returns (rs: seq<Req>, fsizeLocal: int)
    requires SizesKnown(reqs, ws) && nflushed <= |reqs|
    ensures rs == Placed(reqs, ws, nflushed, 0) && fsizeLocal == DataLen(ws[nflushed..])
  {
    rs, fsizeLocal := reqs, 0;
    var i := nflushed;
    ghost var t := ws[nflushed..];
    assert t[..0] == [];
    while i < |reqs|
      invariant nflushed <= i <= |reqs| == |rs| && fsizeLocal == DataLen(t[..i - nflushed])
      invariant forall k :: 0 <= k < |reqs| ==>
        rs[k] == if nflushed <= k < i then AtOffset(reqs[k], DataLen(t[..k - nflushed])) else reqs[k]
    {
      DataLenSnoc(t, i - nflushed);
      rs := rs[i := AtOffset(rs[i], fsizeLocal)];
      fsizeLocal := fsizeLocal + reqs[i].hdr.fsize;
      i := i + 1;
    }
    assert t[..i - nflushed] == t;
  }

  /** The second loop: offsets become file addresses. */
  method Rebase(reqs: seq<Req>, nflushed: nat, delta: int, ghost was: seq<Req>, ghost ws: seq<Write>) returns (rs: seq<Req>)
    requires |was| == |ws| && nflushed <= |was| && reqs == Placed(was, ws, nflushed, 0)
    ensures rs == Placed(was, ws, nflushed, delta)
  {
    rs := reqs;
    var i := nflushed;
    while i < |reqs|
      invariant nflushed <= i <= |reqs| == |rs|
      invariant forall k :: 0 <= k < |reqs| ==>
        rs[k] == if nflushed <= k < i then AtOffset(reqs[k], reqs[k].hdr.foff + delta) else reqs[k]
    {
      rs := rs[i := AtOffset(rs[i], rs[i].hdr.foff + delta)];
      i := i + 1;
    }
  }

  // ----- all processes -----

  function Pending(rk: Process): seq<Write>
    requires rk.nflushed <= |rk.writes|
  {
    rk.writes[rk.nflushed..]
  }

  predicate Counts(ranks: seq<Process>)
  {
    forall r :: 0 <= r < |ranks| ==> ranks[r].nflushed <= |ranks[r].writes| == |ranks[r].q.reqs|
  }

  /** Data waiting on the processes before process r: the exclusive scan. */
  function Before(ranks: seq<Process>, r: nat): nat
    requires Counts(ranks) && r <= |ranks|
    decreases r
  {
    if r == 0 then 0 else Before(ranks, r - 1) + DataLen(Pending(ranks[r - 1]))
  }

  function FlushRank(rk: Process, off: int): Process
    requires rk.nflushed <= |rk.writes| == |rk.q.reqs|
  {
    rk.(q := rk.q.(reqs := Placed(rk.q.reqs, rk.writes, rk.nflushed, off)), nflushed := |rk.q.reqs|)
  }

  /** All processes after a flush into a log dataset at address doff. */
  function FlushRanks(ranks: seq<Process>, doff: int): (rs: seq<Process>)
    requires Counts(ranks)
    ensures |rs| == |ranks|
  {
    seq(|ranks|, r requires 0 <= r < |ranks| => FlushRank(ranks[r], doff + Before(ranks, r)))
  }

  lemma FlushedAll(ranks: seq<Process>, doff: int)
    requires Counts(ranks)
    ensures Counts(FlushRanks(ranks, doff)) && forall r :: 0 <= r < |ranks| ==> Pending(FlushRanks(ranks, doff)[r]) == []
  {
    hide Before;
    var fs := FlushRanks(ranks, doff);
    forall r | 0 <= r < |fs| ensures fs[r].nflushed == |fs[r].writes| == |fs[r].q.reqs| {}
  }

  /** The bytes written, in file order. */
  function AllData(ranks: seq<Process>, r: nat): (bs: seq<byte>)
    requires Counts(ranks) && r <= |ranks|
    ensures |bs| == Before(ranks, r)
    decreases r
  {
    if r == 0 then [] else AllData(ranks, r - 1) + DataOf(Pending(ranks[r - 1]))
  }

  function Zeros(n: nat): (s: seq<byte>)
    ensures |s| == n
  {
    seq(n, i => 0)
  }

  /** The file after the write; what lies between the old end and the new dataset is left to the allocator. */
  function WriteLog(file: seq<byte>, doff: nat, data: seq<byte>): (f: seq<byte>)
    requires |file| <= doff
    ensures |f| == doff + |data|
  {
    file + Zeros(doff - |file|) + data
  }

  // ----- tiling -----

  function RankRecs(ws: seq<Write>, off: int): (rs: seq<Rec>)
    ensures |rs| == |ws|
    decreases |ws|
  {
    if ws == [] then [] else [Rec(ws[0], off)] + RankRecs(ws[1..], off + |ws[0].data|)
  }

  /** The records of a flush, in order of process and program. */
  function FlushRecs(ranks: seq<Process>, doff: int, r: nat): (rs: seq<Rec>)
    requires Counts(ranks) && r <= |ranks|
    decreases r
  {
    if r == 0 then [] else FlushRecs(ranks, doff, r - 1) + RankRecs(Pending(ranks[r - 1]), doff + Before(ranks, r - 1))
  }

  /** Extents follow one another without gap from `from` to `to`. */
  ghost predicate Tiles(rs: seq<Rec>, from: int, to: int)
  {
    (rs == [] ==> from == to) && (rs != [] ==> rs[0].foff == from && RecEnd(rs[|rs| - 1]) == to) &&
    forall i :: 0 <= i < |rs| - 1 ==> RecEnd(rs[i]) == rs[i + 1].foff
  }

  function RecEnd(r: Rec): int { r.foff + |r.write.data| }

  lemma TilesConcat(a: seq<Rec>, b: seq<Rec>, x: int, y: int, z: int)
    requires Tiles(a, x, y) && Tiles(b, y, z)
    ensures Tiles(a + b, x, z)
  {
    var s := a + b;
    forall i | 0 <= i < |s| - 1 ensures RecEnd(s[i]) == s[i + 1].foff
    {
      if i < |a| - 1 {
        assert s[i] == a[i] && s[i + 1] == a[i + 1];
      } else if i >= |a| {
        assert s[i] == b[i - |a|] && s[i + 1] == b[i + 1 - |a|];
      }
    }
  }

  lemma {:induction false} RankTiles(ws: seq<Write>, off: int)
    ensures Tiles(RankRecs(ws, off), off, off + DataLen(ws))
    decreases |ws|
  {
    if ws != [] {
      RankTiles(ws[1..], off + |ws[0].data|);
      TilesConcat([Rec(ws[0], off)], RankRecs(ws[1..], off + |ws[0].data|), off, off + |ws[0].data|, off + DataLen(ws));
    }
  }

  lemma NoTiles(x: int)
    ensures Tiles([], x, x)
  {
  }

  /** A flush tiles its log dataset: extents in order of process and program, no gap, no overlap. */
  lemma {:induction false} FlushTiles(ranks: seq<Process>, doff: int, r: nat)
    requires Counts(ranks) && r <= |ranks|
    ensures Tiles(FlushRecs(ranks, doff, r), doff, doff + Before(ranks, r))
    decreases r
  {
    hide Tiles, RankRecs, DataLen;
    if r == 0 { NoTiles(doff); }
    if r > 0 {
      FlushTiles(ranks, doff, r - 1);
      RankTiles(Pending(ranks[r - 1]), doff + Before(ranks, r - 1));
      TilesConcat(FlushRecs(ranks, doff, r - 1), RankRecs(Pending(ranks[r - 1]), doff + Before(ranks, r - 1)),
                  doff, doff + Before(ranks, r - 1), doff + Before(ranks, r));
    }
  }

  lemma {:induction false} TilesIncrease(rs: seq<Rec>, from: int, to: int, i: nat, j: nat)
    requires Tiles(rs, from, to) && i < j < |rs|
    ensures RecEnd(rs[i]) <= rs[j].foff
    decreases j - i
  {
    if i < j - 1 { TilesIncrease(rs, from, to, i, j - 1); }
    assert RecEnd(rs[j - 1]) == rs[j].foff;
  }

  // ----- bytes -----

  /** The record's data stand at its address. */
  ghost predicate Holds(file: seq<byte>, r: Rec)
  {
    0 <= r.foff && RecEnd(r) <= |file| && file[r.foff..RecEnd(r)] == r.write.data
  }

  lemma Cleave(file: seq<byte>, off: nat, x: seq<byte>, y: seq<byte>)
    requires off + |x| + |y| <= |file| && file[off..off + |x| + |y|] == x + y
    ensures file[off..off + |x|] == x && file[off + |x|..off + |x| + |y|] == y
  {
    var d := file[off..off + |x| + |y|];
    assert file[off..off + |x|] == d[..|x|] && file[off + |x|..off + |x| + |y|] == d[|x|..];
  }

  lemma {:induction false} RankHolds(file: seq<byte>, ws: seq<Write>, off: nat, i: nat)
    requires off + DataLen(ws) <= |file| && file[off..off + DataLen(ws)] == DataOf(ws) && i < |ws|
    ensures Holds(file, RankRecs(ws, off)[i])
    decreases |ws|
  {
    var n := |ws[0].data|;
    Cleave(file, off, ws[0].data, DataOf(ws[1..]));
    if i > 0 { RankHolds(file, ws[1..], off + n, i - 1); }
  }

  lemma {:induction false} FlushHolds(file: seq<byte>, ranks: seq<Process>, doff: nat, r: nat, i: nat)
    requires Counts(ranks) && r <= |ranks| && doff + Before(ranks, r) <= |file|
    requires file[doff..doff + Before(ranks, r)] == AllData(ranks, r) && i < |FlushRecs(ranks, doff, r)|
    ensures Holds(file, FlushRecs(ranks, doff, r)[i])
    decreases r
  {
    hide DataOf, RankRecs, DataLen, Holds;
    var p := Pending(ranks[r - 1]);
    var b := Before(ranks, r - 1);
    Cleave(file, doff, AllData(ranks, r - 1), DataOf(p));
    var n := |FlushRecs(ranks, doff, r - 1)|;
    if i < n { FlushHolds(file, ranks, doff, r - 1, i); } else { RankHolds(file, p, doff + b, i - n); }
  }

  /** After the write every flushed request's data stand at its final address, and what was there before is
      unchanged. */
  lemma FlushStores(file: seq<byte>, ranks: seq<Process>, doff: nat)
    requires Counts(ranks) && |file| <= doff
    ensures var f := WriteLog(file, doff, AllData(ranks, |ranks|));
            (forall r :: r in FlushRecs(ranks, doff, |ranks|) ==> Holds(f, r)) && forall r :: Holds(file, r) ==> Holds(f, r)
  {
    var f := WriteLog(file, doff, AllData(ranks, |ranks|));
    assert f[doff..doff + Before(ranks, |ranks|)] == AllData(ranks, |ranks|);
    var rs := FlushRecs(ranks, doff, |ranks|);
    forall r | r in rs ensures Holds(f, r)
    {
      var i :| 0 <= i < |rs| && rs[i] == r;
      FlushHolds(f, ranks, doff, |ranks|, i);
    }
    forall r | Holds(file, r) ensures Holds(f, r)
    {
      assert f[r.foff..RecEnd(r)] == file[r.foff..RecEnd(r)];
    }
  }

  // ----- requests and records -----

  /** What request i of a process says: the write and its address. */
  function RecOf(rk: Process, i: nat): Rec
    requires i < |rk.writes| == |rk.q.reqs|
  {
    Rec(rk.writes[i], rk.q.reqs[i].hdr.foff)
  }

  function RecsFrom(rk: Process, i: nat): (rs: seq<Rec>)
    requires i <= |rk.writes| == |rk.q.reqs|
    ensures |rs| == |rk.writes| - i
  {
    seq(|rk.writes| - i, k requires 0 <= k < |rk.writes| - i => RecOf(rk, i + k))
  }

  lemma {:induction false} RankRecsAt(ws: seq<Write>, off: int, i: nat)
    requires i < |ws|
    ensures RankRecs(ws, off)[i] == Rec(ws[i], off + DataLen(ws[..i]))
    decreases |ws|
  {
    if i == 0 {
      assert ws[..0] == [];
    } else {
      RankRecsAt(ws[1..], off + |ws[0].data|, i - 1);
      assert ws[..i][1..] == ws[1..][..i - 1];
    }
  }

  /** A flush gives each pending request the address of its record and leaves the others alone. */
  lemma FlushedRecs(rk: Process, off: int)
    requires rk.nflushed <= |rk.writes| == |rk.q.reqs|
    ensures RecsFrom(FlushRank(rk, off), rk.nflushed) == RankRecs(Pending(rk), off)
    ensures forall i :: 0 <= i < rk.nflushed ==> RecOf(FlushRank(rk, off), i) == RecOf(rk, i)
  {
    hide RankRecs;
    var a, b := RecsFrom(FlushRank(rk, off), rk.nflushed), RankRecs(Pending(rk), off);
    assert |a| == |b|;
    forall i | 0 <= i < |a| ensures a[i] == b[i]
    {
      RankRecsAt(Pending(rk), off, i);
      assert a[i] == RecOf(FlushRank(rk, off), rk.nflushed + i);
      assert Pending(rk)[i] == rk.writes[rk.nflushed + i];
    }
  }

  ghost predicate SameButAddress(a: Req, b: Req) { b == AtOffset(a, b.hdr.foff) }

  /** Addresses do not matter to what a queue records. */
  lemma PlacedStored(cfg: bool, share: bool, q: Queue, ws: seq<Write>, reqs: seq<Req>)
    requires Stored(cfg, share, q, ws) && |reqs| == |q.reqs|
    requires forall i :: 0 <= i < |reqs| ==> SameButAddress(q.reqs[i], reqs[i]) && Fits64(reqs[i].hdr.foff)
    ensures Stored(cfg, share, q.(reqs := reqs), ws)
  {
    hide WriteOk, NewReq, IsReference, Equal, ReqFits, RefersTo, TableHolds;
    var p := q.(reqs := reqs);
    ChainPlaced(q, reqs);
    TablePlaced(share, q, reqs);
    forall i | 0 <= i < |ws| ensures Recorded(cfg, share, p, ws, i) { RecordedPlaced(cfg, share, q, ws, reqs, i); }
    forall t | t in p.table ensures Plain(cfg, p, ws, t) { PlainPlaced(cfg, q, ws, reqs, t); }
  }

  lemma ChainPlaced(q: Queue, reqs: seq<Req>)
    requires Chain(q) && |reqs| == |q.reqs|
    requires forall i :: 0 <= i < |reqs| ==> SameButAddress(q.reqs[i], reqs[i]) && Fits64(reqs[i].hdr.foff)
    ensures Chain(q.(reqs := reqs))
  {
    var p := q.(reqs := reqs);
    forall i | 0 <= i < |p.reqs| ensures ReqFits(p.reqs[i]) && Offset(p, i + 1) == p.reqs[i].metaOff + p.reqs[i].hdr.metaSize
    {
      assert Offset(q, i + 1) == q.reqs[i].metaOff + q.reqs[i].hdr.metaSize;
    }
  }

  lemma TablePlaced(share: bool, q: Queue, reqs: seq<Req>)
    requires TableHolds(share, q) && |reqs| == |q.reqs|
    requires forall i :: 0 <= i < |reqs| ==> SameButAddress(q.reqs[i], reqs[i]) && Fits64(reqs[i].hdr.foff)
    ensures TableHolds(share, q.(reqs := reqs))
  {
    forall t | 0 <= t < |reqs| ensures LongInFull(reqs[t]) == LongInFull(q.reqs[t]) { assert SameButAddress(q.reqs[t], reqs[t]); }
  }

  lemma PlainPlaced(cfg: bool, q: Queue, ws: seq<Write>, reqs: seq<Req>, i: nat)
    requires Plain(cfg, q, ws, i) && |reqs| == |q.reqs| && SameButAddress(q.reqs[i], reqs[i])
    ensures Plain(cfg, q.(reqs := reqs), ws, i)
  {
    hide WriteOk, EntryTail;
  }

  lemma RefPlaced(cfg: bool, a: Write, b: Write, s: Req, s': Req, roff: int)
    requires WriteOk(cfg, a) && WriteOk(cfg, b) && IsReference(cfg, a, b, s, roff) && SameButAddress(s, s') && Fits64(s'.hdr.foff)
    ensures IsReference(cfg, a, b, s', roff) && s'.metaOff == s.metaOff && s'.hdr.did == s.hdr.did && s'.hdr.fsize == s.hdr.fsize
  {
  }

  lemma RecordedPlaced(cfg: bool, share: bool, q: Queue, ws: seq<Write>, reqs: seq<Req>, i: nat)
    requires Recorded(cfg, share, q, ws, i) && i < |q.reqs| == |reqs|
    requires forall i :: 0 <= i < |reqs| ==> SameButAddress(q.reqs[i], reqs[i]) && Fits64(reqs[i].hdr.foff)
    ensures Recorded(cfg, share, q.(reqs := reqs), ws, i)
  {
    hide WriteOk, NewReq, IsReference, MayEqual, SameRecord;
    if Plain(cfg, q, ws, i) {
      PlainPlaced(cfg, q, ws, reqs, i);
    } else {
      var j: nat :| RefersTo(cfg, q, ws, i, j);
      PlainPlaced(cfg, q, ws, reqs, j);
      RefPlaced(cfg, ws[i], ws[j], q.reqs[i], reqs[i], q.reqs[j].metaOff - q.reqs[i].metaOff);
      assert RefersTo(cfg, q.(reqs := reqs), ws, i, j);
    }
  }
}
