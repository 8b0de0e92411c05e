/** The order of the writes: a write is behind those of earlier flushes, within a flush behind those of lower
    processes, and within a process behind those issued before it. The log stores the writes in this order. */
module WriteOrder {
  import opened Dedup
  import opened Flush
  import opened Sections

  /** A write call: the process, the write, and how many flushes had stored data before it. */
  datatype Issue = Issue(rank: nat, write: Write, epoch: nat)

  /** What has happened: the writes issued, in the order of the calls; the flushes; the writes stored in the file,
      in the order of their addresses, and which call each came from; the calls pending on every process; and
      the sections of the metadata datasets. */
  datatype Hist = Hist(issued: seq<Issue>, epoch: nat, log: seq<Rec>, src: seq<nat>, pend: seq<seq<nat>>, all: seq<seq<Sec>>)

  function WritesOf(rs: seq<Rec>): (ws: seq<Write>)
    ensures |ws| == |rs|
  {
    seq(|rs|, i requires 0 <= i < |rs| => rs[i].write)
  }

  function IssuedWrites(cs: seq<Issue>): (ws: seq<Write>)
    ensures |ws| == |cs|
  {
    seq(|cs|, i requires 0 <= i < |cs| => cs[i].write)
  }

  function PendingOf(ranks: seq<Process>, r: nat): (ws: seq<Write>)
    requires Counts(ranks) && r <= |ranks|
    decreases r
  {
    if r == 0 then [] else PendingOf(ranks, r - 1) + Pending(ranks[r - 1])
  }

  /** Call i is before call j: a flush lies between them, or the process is lower, or it is the same process and
      the call came first. */
  predicate Earlier(cs: seq<Issue>, i: nat, j: nat)
  {
    i < |cs| && j < |cs| &&
    (cs[i].epoch < cs[j].epoch ||
     (cs[i].epoch == cs[j].epoch && (cs[i].rank < cs[j].rank || (cs[i].rank == cs[j].rank && i < j))))
  }

  // ----- the invariant -----

  ghost predicate EachEarlier(cs: seq<Issue>, src: seq<nat>)
  {
    forall t, u :: 0 <= t < u < |src| ==> Earlier(cs, src[t], src[u])
  }

  /** Every entry of the list is a call of one of the first n processes in epoch e, with the write given. */
  ghost predicate CallsOf(cs: seq<Issue>, src: seq<nat>, ws: seq<Write>, e: nat, n: nat)
  {
    |src| == |ws| && forall t :: 0 <= t < |src| ==> src[t] < |cs| && cs[src[t]].write == ws[t] && cs[src[t]].epoch == e && cs[src[t]].rank < n
  }

  /** The log holds the stored writes in order. */
  ghost predicate LogInOrder(h: Hist)
  {
    |h.src| == |h.log| && EachEarlier(h.issued, h.src) &&
    forall t :: 0 <= t < |h.src| ==> h.src[t] < |h.issued| && h.issued[h.src[t]].write == h.log[t].write && h.issued[h.src[t]].epoch < h.epoch
  }

  /** The pending writes of process r are its last calls, in order. */
  ghost predicate PendInOrder(h: Hist, rk: Process, r: nat)
    requires rk.nflushed <= |rk.writes| && r < |h.pend|
  {
    CallsOf(h.issued, h.pend[r], Pending(rk), h.epoch, r + 1) && EachEarlier(h.issued, h.pend[r]) &&
    forall t :: 0 <= t < |h.pend[r]| ==> h.issued[h.pend[r][t]].rank == r
  }

  ghost predicate Known(h: Hist, i: nat)
    requires i < |h.issued|
  {
    i in h.src || (h.issued[i].rank < |h.pend| && i in h.pend[h.issued[i].rank])
  }

  ghost predicate Epochs(cs: seq<Issue>, e: nat)
  {
    (forall i :: 0 <= i < |cs| ==> cs[i].epoch <= e) && forall i, j :: 0 <= i < j < |cs| ==> cs[i].epoch <= cs[j].epoch
  }

  ghost predicate Ordered(ranks: seq<Process>, h: Hist)
    requires Counts(ranks)
  {
    LogInOrder(h) && |h.pend| == |ranks| && (forall r :: 0 <= r < |ranks| ==> PendInOrder(h, ranks[r], r)) &&
    (forall i :: 0 <= i < |h.issued| ==> Known(h, i)) && Epochs(h.issued, h.epoch)
  }

  // ----- the steps -----

  function Issued(h: Hist, r: nat, x: Write): (g: Hist)
    requires r < |h.pend|
  {
    h.(issued := h.issued + [Issue(r, x, h.epoch)], pend := h.pend[r := h.pend[r] + [|h.issued|]])
  }

  function PendBefore(pend: seq<seq<nat>>, n: nat): (src: seq<nat>)
    requires n <= |pend|
    decreases n
  {
    if n == 0 then [] else PendBefore(pend, n - 1) + pend[n - 1]
  }

  /** After a flush that stores data. */
  function Flushed(h: Hist, ranks: seq<Process>, doff: int): (g: Hist)
    requires Counts(ranks)
  {
    h.(epoch := h.epoch + 1, log := h.log + FlushRecs(ranks, doff, |ranks|), src := h.src + PendBefore(h.pend, |h.pend|),
       pend := seq(|h.pend|, r => []))
  }

  // ----- a write -----

  lemma EarlierStays(cs: seq<Issue>, x: Issue, i: nat, j: nat)
    requires Earlier(cs, i, j)
    ensures Earlier(cs + [x], i, j)
  {
  }

  lemma EarlierAllStay(cs: seq<Issue>, x: Issue, src: seq<nat>)
    requires EachEarlier(cs, src)
    ensures EachEarlier(cs + [x], src)
  {
    hide Earlier;
    forall t, u | 0 <= t < u < |src| ensures Earlier(cs + [x], src[t], src[u]) { EarlierStays(cs, x, src[t], src[u]); }
  }

  lemma PendMore(h: Hist, rk: Process, next: Process, r: nat, x: Write)
    requires rk.nflushed <= |rk.writes| && next.nflushed <= |next.writes| && r < |h.pend|
    requires PendInOrder(h, rk, r) && Epochs(h.issued, h.epoch) && Pending(next) == Pending(rk) + [x]
    ensures PendInOrder(Issued(h, r, x), next, r)
  {
    hide Pending;
    var g := Issued(h, r, x);
    var p := g.pend[r];
    EarlierAllStay(h.issued, Issue(r, x, h.epoch), h.pend[r]);
    forall t, u | 0 <= t < u < |p| ensures Earlier(g.issued, p[t], p[u])
    {
      if u < |h.pend[r]| { assert Earlier(g.issued, h.pend[r][t], h.pend[r][u]); }
    }
  }

  lemma PendStays(h: Hist, rk: Process, next: Process, q: nat, r: nat, x: Write)
    requires rk.nflushed <= |rk.writes| && q < |h.pend| && r < |h.pend| && q != r
    requires PendInOrder(h, rk, q)
    ensures PendInOrder(Issued(h, r, x), rk, q)
  {
    hide Pending, EachEarlier;
    EarlierAllStay(h.issued, Issue(r, x, h.epoch), h.pend[q]);
  }

  lemma WriteLogOrder(h: Hist, r: nat, x: Write)
    requires LogInOrder(h) && r < |h.pend|
    ensures LogInOrder(Issued(h, r, x))
  {
    hide EachEarlier;
    EarlierAllStay(h.issued, Issue(r, x, h.epoch), h.src);
  }

  lemma WriteKnown(h: Hist, r: nat, x: Write, i: nat)
    requires r < |h.pend| && i <= |h.issued| && (i < |h.issued| ==> Known(h, i))
    ensures Known(Issued(h, r, x), i)
  {
    var g := Issued(h, r, x);
    if i == |h.issued| {
      assert g.pend[r][|h.pend[r]|] == i;
    } else if i !in h.src {
      var q := h.issued[i].rank;
      var t :| 0 <= t < |h.pend[q]| && h.pend[q][t] == i;
      assert g.pend[q][t] == i;
    }
  }

  /** A write keeps the order: it comes behind all pending writes of its process. */
  lemma WriteOrdered(ranks: seq<Process>, rs: seq<Process>, h: Hist, r: nat, x: Write)
    requires Counts(ranks) && Counts(rs) && |rs| == |ranks| && r < |ranks| && rs == ranks[r := rs[r]] && Ordered(ranks, h)
    requires Pending(rs[r]) == Pending(ranks[r]) + [x]
    ensures Ordered(rs, Issued(h, r, x))
  {
    hide LogInOrder, PendInOrder, Known, Pending;
    var g := Issued(h, r, x);
    WriteLogOrder(h, r, x);
    forall q | 0 <= q < |rs| ensures PendInOrder(g, rs[q], q)
    {
      assert PendInOrder(h, ranks[q], q);
      if q == r { PendMore(h, ranks[r], rs[r], r, x); } else { PendStays(h, ranks[q], rs[q], q, r, x); }
    }
    forall i | 0 <= i < |g.issued| ensures Known(g, i) { WriteKnown(h, r, x, i); }
  }

  // ----- a flush -----

  lemma EarlierRank(cs: seq<Issue>, a: seq<nat>, b: seq<nat>, x: seq<Write>, y: seq<Write>, e: nat, n: nat)
    requires CallsOf(cs, a, x, e, n) && EachEarlier(cs, a) && CallsOf(cs, b, y, e, n + 1) && EachEarlier(cs, b)
    requires forall t :: 0 <= t < |b| ==> cs[b[t]].rank == n
    ensures CallsOf(cs, a + b, x + y, e, n + 1) && EachEarlier(cs, a + b)
  {
    var s := a + b;
    forall t, u | 0 <= t < u < |s| ensures Earlier(cs, s[t], s[u])
    {
      if u < |a| {
        assert Earlier(cs, a[t], a[u]);
      } else if |a| <= t {
        assert Earlier(cs, b[t - |a|], b[u - |a|]);
      }
    }
  }

  /** The pending writes, process by process, are in order. */
  lemma {:induction false} PendAll(ranks: seq<Process>, h: Hist, n: nat)
    requires Counts(ranks) && |h.pend| == |ranks| && n <= |ranks| && forall r :: 0 <= r < |ranks| ==> PendInOrder(h, ranks[r], r)
    ensures CallsOf(h.issued, PendBefore(h.pend, n), PendingOf(ranks, n), h.epoch, n) && EachEarlier(h.issued, PendBefore(h.pend, n))
    decreases n
  {
    hide CallsOf, EachEarlier, Pending;
    if n == 0 {
      NoCalls(h.issued, h.epoch);
    } else {
      PendAll(ranks, h, n - 1);
      assert PendInOrder(h, ranks[n - 1], n - 1);
      EarlierRank(h.issued, PendBefore(h.pend, n - 1), h.pend[n - 1], PendingOf(ranks, n - 1), Pending(ranks[n - 1]), h.epoch, n - 1);
    }
  }

  lemma NoCalls(cs: seq<Issue>, e: nat)
    ensures CallsOf(cs, [], [], e, 0) && EachEarlier(cs, [])
  {
  }

  lemma {:induction false} PendMember(pend: seq<seq<nat>>, n: nat, r: nat, i: nat)
    requires r < n <= |pend| && i in pend[r]
    ensures i in PendBefore(pend, n)
    decreases n
  {
    if r < n - 1 { PendMember(pend, n - 1, r, i); }
  }

  lemma LogMore(h: Hist, ranks: seq<Process>, doff: int)
    requires Counts(ranks) && |h.pend| == |ranks| && LogInOrder(h)
    requires CallsOf(h.issued, PendBefore(h.pend, |ranks|), WritesOf(FlushRecs(ranks, doff, |ranks|)), h.epoch, |ranks|)
    requires EachEarlier(h.issued, PendBefore(h.pend, |ranks|))
    ensures LogInOrder(Flushed(h, ranks, doff))
  {
    hide PendBefore, FlushRecs;
    var g, p, rs := Flushed(h, ranks, doff), PendBefore(h.pend, |ranks|), FlushRecs(ranks, doff, |ranks|);
    forall t | 0 <= t < |g.src|
      ensures g.src[t] < |g.issued| && g.issued[g.src[t]].write == g.log[t].write && g.issued[g.src[t]].epoch < g.epoch
    {
      if t >= |h.src| { assert g.src[t] == p[t - |h.src|] && WritesOf(rs)[t - |h.src|] == g.log[t].write; }
    }
    forall t, u | 0 <= t < u < |g.src| ensures Earlier(g.issued, g.src[t], g.src[u])
    {
      if u < |h.src| {
        assert Earlier(h.issued, h.src[t], h.src[u]);
      } else if t >= |h.src| {
        assert Earlier(h.issued, p[t - |h.src|], p[u - |h.src|]);
      } else {
        assert g.src[t] == h.src[t] && g.src[u] == p[u - |h.src|];
      }
    }
  }

  lemma FlushKnown(h: Hist, ranks: seq<Process>, doff: int, i: nat)
    requires Counts(ranks) && i < |h.issued| && Known(h, i)
    ensures Known(Flushed(h, ranks, doff), i)
  {
    hide FlushRecs;
    if i !in h.src { PendMember(h.pend, |h.pend|, h.issued[i].rank, i); }
  }

  lemma NothingWaiting(h: Hist, rk: Process, r: nat)
    requires rk.nflushed <= |rk.writes| && r < |h.pend| && Pending(rk) == [] && h.pend[r] == []
    ensures PendInOrder(h, rk, r)
  {
  }

  /** A flush keeps the order: the pending writes go behind all stored ones, in order of process and program. */
  lemma FlushOrdered(ranks: seq<Process>, rs: seq<Process>, h: Hist, doff: int)
    requires Counts(ranks) && Counts(rs) && |rs| == |ranks| && Ordered(ranks, h)
    requires forall r :: 0 <= r < |rs| ==> Pending(rs[r]) == []
    requires WritesOf(FlushRecs(ranks, doff, |ranks|)) == PendingOf(ranks, |ranks|)
    ensures Ordered(rs, Flushed(h, ranks, doff))
  {
    hide LogInOrder, PendInOrder, Known, Pending, FlushRecs, CallsOf, EachEarlier, PendBefore, PendingOf, WritesOf;
    var g := Flushed(h, ranks, doff);
    PendAll(ranks, h, |ranks|);
    LogMore(h, ranks, doff);
    forall q | 0 <= q < |rs| ensures PendInOrder(g, rs[q], q) { NothingWaiting(g, rs[q], q); }
    forall i | 0 <= i < |g.issued| ensures Known(g, i) { FlushKnown(h, ranks, doff, i); }
  }

  // ----- other steps -----

  /** Steps that leave the pending writes alone keep the order. */
  lemma SameOrdered(ranks: seq<Process>, rs: seq<Process>, h: Hist, g: Hist)
    requires Counts(ranks) && Counts(rs) && |rs| == |ranks| && Ordered(ranks, h) && g == h.(all := g.all)
    requires forall r :: 0 <= r < |rs| ==> Pending(rs[r]) == Pending(ranks[r])
    ensures Ordered(rs, g)
  {
    hide Pending, CallsOf, EachEarlier;
    forall r | 0 <= r < |rs| ensures PendInOrder(g, rs[r], r) { assert PendInOrder(h, ranks[r], r); }
    forall i | 0 <= i < |g.issued| ensures Known(g, i) { assert Known(h, i); }
  }

  // ----- when nothing is pending -----

  /** With nothing pending the log is all calls, each stored, in order. */
  lemma AllStored(ranks: seq<Process>, h: Hist, i: nat) returns (t: nat)
    requires Counts(ranks) && Ordered(ranks, h) && i < |h.issued|
    requires forall r :: 0 <= r < |ranks| ==> Pending(ranks[r]) == []
    ensures t < |h.log| && t < |h.src| && h.src[t] == i && h.log[t].write == h.issued[i].write
  {
    hide EachEarlier, Pending, PendInOrder;
    forall r | 0 <= r < |ranks| ensures h.pend[r] == []
    {
      assert PendInOrder(h, ranks[r], r);
      NoneWaiting(h, ranks[r], r);
    }
    assert Known(h, i);
    t :| 0 <= t < |h.src| && h.src[t] == i;
  }

  lemma NoneWaiting(h: Hist, rk: Process, r: nat)
    requires rk.nflushed <= |rk.writes| && r < |h.pend| && PendInOrder(h, rk, r) && Pending(rk) == []
    ensures h.pend[r] == []
  {
  }

  lemma EarlierTotal(cs: seq<Issue>, i: nat, j: nat)
    requires i < |cs| && j < |cs|
    ensures i == j || Earlier(cs, i, j) || Earlier(cs, j, i)
    ensures !(Earlier(cs, i, j) && Earlier(cs, j, i)) && !Earlier(cs, i, i)
  {
  }

  lemma EarlierTrans(cs: seq<Issue>, i: nat, j: nat, k: nat)
    requires Earlier(cs, i, j) && Earlier(cs, j, k)
    ensures Earlier(cs, i, k)
  {
  }
}
