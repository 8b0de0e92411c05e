/** Filling up the selection: each group is written through the pointers of the next slots, sorted and merged.
    The pointers behind the new length still point to rows that were kept, and the next group writes through
    them: this module says exactly when that destroys a block. */
module SlotFill {
  import opened Grid
  import opened Rows
  import opened BlockSort
  import opened BlockMerge
  import opened SlotMerge
  import opened CanonicalForm

  function CellsOf(bs: seq<Block>): (xs: seq<Cell>)
    ensures |xs| == |bs|
  {
    seq(|bs|, t requires 0 <= t < |bs| => Cell(bs[t].start, bs[t].count))
  }

  ghost predicate AllRanked(n: nat, xs: seq<Cell>) { forall t {:trigger xs[t]} :: 0 <= t < |xs| ==> Ranked(n, xs[t]) }

  /** Contents xs written one after the other through slots from, from + 1 and so on. */
  ghost function Store(n: nat, s: Slots, from: nat, xs: seq<Cell>): (r: Slots)
    requires SlotsOk(n, s) && AllRanked(n, xs) && from + |xs| <= |s.refs|
    ensures SlotsOk(n, r) && r.refs == s.refs && |r.rows| == |s.rows|
    decreases |xs|
  {
    if xs == [] then s
    else
      var k := |xs| - 1;
      var p := Store(n, s, from, xs[..k]);
      p.(rows := p.rows[p.refs[from + k] := xs[k]])
  }

  /** What a group writes: a single block as it is, several blocks row by row. */
  function Pieces(n: nat, run: seq<Block>): (bs: seq<Block>)
    requires n > 0 && AllWF(n, run) && run != []
    ensures AllWF(n, bs)
  {
    if |run| == 1 then run else AllRows(n, run)
  }

  lemma PiecesExist(n: nat, run: seq<Block>)
    requires n > 0 && AllWF(n, run) && run != []
    ensures Pieces(n, run) != [] && AllRanked(n, CellsOf(Pieces(n, run)))
  {
    hide RowsOf;
    var bs := Pieces(n, run);
    RowCount(run[0]);
    ProdPositive(Front(run[0].count));
    forall t | 0 <= t < |bs| ensures Ranked(n, CellsOf(bs)[t]) { assert WF(n, bs[t]); }
  }

  function Need(n: nat, g: seq<Block>): nat
    requires n > 0 && AllWF(n, g)
    decreases |g|
  {
    if g == [] then 0 else
      var k := RunLen(n, g);
      |Pieces(n, g[..k])| + Need(n, g[k..])
  }

  lemma FirstRun(n: nat, t: seq<Block>, k: nat)
    requires n > 0 && AllWF(n, t) && t != [] && RunLen(n, t) == k
    ensures AllWF(n, t[..k]) && AllWF(n, t[k..]) && Need(n, t) == |Pieces(n, t[..k])| + Need(n, t[k..])
  {
  }

  /** One group: write, sort, merge. */
  ghost function RunStep(n: nat, s: Slots, nreq: nat, run: seq<Block>): (r: Merged)
    requires n > 0 && SlotsOk(n, s) && AllWF(n, run) && run != [] && nreq + |Pieces(n, run)| <= |s.refs|
    ensures SlotsOk(n, r.s) && |r.s.refs| == |s.refs| && |r.s.rows| == |s.rows| && nreq < r.len <= nreq + |Pieces(n, run)|
  {
    PiecesExist(n, run);
    var xs := CellsOf(Pieces(n, run));
    var a := Store(n, s, nreq, xs);
    if |run| == 1 then Merged(a, nreq + 1)
    else
      var r := MergeSlots(false, n, n, SortSlots(n, a, nreq, |xs|), nreq, |xs|);
      Merged(r.s, nreq + r.len)
  }

  /** All groups of g, from slot nreq on. */
  ghost function FillFrom(n: nat, g: seq<Block>, s: Slots, nreq: nat): (r: Merged)
    requires n > 0 && SlotsOk(n, s) && AllWF(n, g) && nreq + Need(n, g) <= |s.refs|
    ensures SlotsOk(n, r.s) && |r.s.refs| == |s.refs| && |r.s.rows| == |s.rows| && nreq <= r.len <= |s.refs|
    decreases |g|
  {
    if g == [] then Merged(s, nreq)
    else
      var k := RunLen(n, g);
      var r := RunStep(n, s, nreq, g[..k]);
      FillFrom(n, g[k..], r.s, r.len)
  }

  /** The arrays as they are allocated: every slot points to a row of its own. */
  function Fresh(n: nat, room: nat): (s: Slots)
    ensures SlotsOk(n, s) && |s.refs| == room
  {
    Slots(seq(room, t => Cell(seq(n, k => 0), seq(n, k => 0))), seq(room, t => t))
  }

  /** What the first `len` slots point to. */
  function Shown(s: Slots, len: nat): (bs: seq<Block>)
    requires len <= |s.refs| && forall t {:trigger s.refs[t]} :: 0 <= t < len ==> 0 <= s.refs[t] < |s.rows|
    ensures |bs| == len
  {
    seq(len, t requires 0 <= t < len => Block(s.rows[s.refs[t]].start, s.rows[s.refs[t]].ext))
  }

  /** The block list that the program makes of a hyperslab selection. */
  ghost function Result(n: nat, spans: seq<Block>): (bs: seq<Block>)
    requires n > 0 && AllWF(n, spans)
  {
    var g := Prepared(n, spans);
    var r := FillFrom(n, g, Fresh(n, Need(n, g)), 0);
    Shown(r.s, r.len)
  }

  // ----- the condition -----

  /** Pointers after a group whose pieces went to rows of their own. */
  function RunRefs(n: nat, refs: seq<int>, nreq: nat, run: seq<Block>): (r: seq<int>)
    requires n > 0 && AllWF(n, run) && run != [] && nreq + |Pieces(n, run)| <= |refs|
    ensures |r| == |refs|
  {
    if |run| == 1 then refs
    else
      var rows := AllRows(n, run);
      var moved := Reordered(refs, nreq, StdOrder(Starts(n, rows), |rows|));
      moved[..nreq] + MergedRefs(n, n, Arrange(n, rows), moved[nreq..nreq + |rows|]) + moved[nreq + |rows|..]
  }

  /** Every group finds, behind the blocks kept so far, slots that share no row with them or with each other. */
  ghost predicate CleanFrom(n: nat, g: seq<Block>, refs: seq<int>, nreq: nat)
    requires n > 0 && AllWF(n, g) && nreq + Need(n, g) <= |refs|
    decreases |g|
  {
    g == [] ||
    var k := RunLen(n, g);
    var run := g[..k];
    Distinct(refs[..nreq + |Pieces(n, run)|]) && EmitsWithin(n, run) &&
    CleanFrom(n, g[k..], RunRefs(n, refs, nreq, run), nreq + |EmitRun(n, run)|)
  }

  /** A group never becomes more blocks than it writes. */
  ghost predicate EmitsWithin(n: nat, run: seq<Block>)
    requires n > 0 && AllWF(n, run) && run != []
    ensures EmitsWithin(n, run) && |EmitRun(n, run)| <= |Pieces(n, run)|
  {
    |EmitRun(n, run)| <= |Pieces(n, run)|
  }

  ghost predicate Clean(n: nat, spans: seq<Block>)
    requires n > 0 && AllWF(n, spans)
  {
    var g := Prepared(n, spans);
    CleanFrom(n, g, Fresh(n, Need(n, g)).refs, 0)
  }

  // ----- writing -----

  /** A row after the writes holds what was written last through a slot that points to it. */
  lemma {:induction false} StoreRow(n: nat, s: Slots, from: nat, xs: seq<Cell>, y: int) returns (x: int)
    requires SlotsOk(n, s) && AllRanked(n, xs) && from + |xs| <= |s.refs| && 0 <= y < |s.rows|
    ensures x == -1 ==> (forall t :: from <= t < from + |xs| ==> s.refs[t] != y) && Store(n, s, from, xs).rows[y] == s.rows[y]
    ensures x != -1 ==> 0 <= x < |xs| && s.refs[from + x] == y && Store(n, s, from, xs).rows[y] == xs[x]
    ensures x != -1 ==> forall t :: from + x < t < from + |xs| ==> s.refs[t] != y
    decreases |xs|
  {
    hide Store, SlotsOk, Ranked;
    if xs == [] {
      NothingStored(n, s, from);
      x := -1;
    } else {
      var k := |xs| - 1;
      LastStored(n, s, from, xs, y);
      x := StoreRow(n, s, from, xs[..k], y);
      if s.refs[from + k] == y { x := k; }
    }
  }

  lemma NothingStored(n: nat, s: Slots, from: nat)
    requires SlotsOk(n, s) && from <= |s.refs|
    ensures Store(n, s, from, []) == s
  {
  }

  lemma LastStored(n: nat, s: Slots, from: nat, xs: seq<Cell>, y: int)
    requires SlotsOk(n, s) && AllRanked(n, xs) && xs != [] && from + |xs| <= |s.refs| && 0 <= y < |s.rows|
    ensures AllRanked(n, xs[..|xs| - 1])
    ensures Store(n, s, from, xs).rows[y] ==
            if s.refs[from + |xs| - 1] == y then xs[|xs| - 1] else Store(n, s, from, xs[..|xs| - 1]).rows[y]
  {
    hide Ranked;
  }

  lemma StoreSnoc(n: nat, s: Slots, from: nat, xs: seq<Cell>, x: Cell)
    requires SlotsOk(n, s) && AllRanked(n, xs) && Ranked(n, x) && from + |xs| < |s.refs|
    ensures AllRanked(n, xs + [x])
    ensures var p := Store(n, s, from, xs); Store(n, s, from, xs + [x]) == p.(rows := p.rows[p.refs[from + |xs|] := x])
  {
    assert (xs + [x])[..|xs|] == xs;
  }

  lemma Differ(ks: seq<int>, t: nat, u: nat)
    requires Distinct(ks) && t < u < |ks|
    ensures ks[t] != ks[u]
  {
  }

  lemma StoreDistinct(n: nat, s: Slots, from: nat, xs: seq<Cell>)
    requires SlotsOk(n, s) && AllRanked(n, xs) && from + |xs| <= |s.refs| && Distinct(s.refs[..from + |xs|])
    ensures forall t :: 0 <= t < |xs| ==> Store(n, s, from, xs).rows[s.refs[from + t]] == xs[t]
    ensures forall t :: 0 <= t < from ==> Store(n, s, from, xs).rows[s.refs[t]] == s.rows[s.refs[t]]
  {
    hide Store;
    var d := s.refs[..from + |xs|];
    forall t | 0 <= t < |xs| ensures Store(n, s, from, xs).rows[s.refs[from + t]] == xs[t]
    {
      var x := StoreRow(n, s, from, xs, s.refs[from + t]);
      if x != -1 && x != t { Differ(d, if x < t then from + x else from + t, if x < t then from + t else from + x); }
    }
    forall t | 0 <= t < from ensures Store(n, s, from, xs).rows[s.refs[t]] == s.rows[s.refs[t]]
    {
      var x := StoreRow(n, s, from, xs, s.refs[t]);
      if x != -1 { Differ(d, t, from + x); }
    }
  }

  // ----- a clean group -----

  /** The first `len` slots point to different rows, which hold the blocks `done`. */
  ghost predicate Holding(useEnd: bool, n: nat, s: Slots, len: nat, done: seq<Block>)
  {
    len <= |s.refs| && Distinct(s.refs[..len]) && AllCells(useEnd, n, s.rows, s.refs[..len]) &&
    BlocksAt(useEnd, n, s.rows, s.refs[..len]) == done
  }

  lemma StoredBlocks(n: nat, s: Slots, nreq: nat, bs: seq<Block>, done: seq<Block>)
    requires SlotsOk(n, s) && AllWF(n, bs) && AllRanked(n, CellsOf(bs)) && nreq + |bs| <= |s.refs|
    requires Holding(false, n, s, nreq, done) && Distinct(s.refs[..nreq + |bs|])
    ensures Holding(false, n, Store(n, s, nreq, CellsOf(bs)), nreq + |bs|, done + bs)
  {
    hide Store;
    var xs := CellsOf(bs);
    var a, m := Store(n, s, nreq, xs), nreq + |bs|;
    StoreDistinct(n, s, nreq, xs);
    var ks := s.refs[..m];
    forall t | 0 <= t < m ensures 0 <= ks[t] < |a.rows| && CellOk(false, n, a.rows[ks[t]]) && AsBlock(false, n, a.rows[ks[t]]) == (done + bs)[t]
    {
      if t < nreq {
        assert s.refs[..nreq][t] == ks[t] && CellOk(false, n, s.rows[ks[t]]);
        assert done[t] == AsBlock(false, n, s.rows[s.refs[..nreq][t]]);
      } else {
        assert ks[t] == s.refs[nreq + (t - nreq)] && WF(n, bs[t - nreq]) && xs[t - nreq] == Cell(bs[t - nreq].start, bs[t - nreq].count);
      }
    }
    assert |done| == nreq;
    assert BlocksAt(false, n, a.rows, ks) == done + bs;
  }

  lemma StoredKeys(useEnd: bool, n: nat, a: Slots, nreq: nat, bs: seq<Block>, done: seq<Block>)
    requires SlotsOk(n, a) && AllWF(n, bs) && Holding(useEnd, n, a, nreq + |bs|, done + bs) && |done| == nreq
    ensures KeysAt(n, a, nreq, |bs|) == Starts(n, bs)
  {
    hide CellOk;
    var ks, keys := a.refs[..nreq + |bs|], KeysAt(n, a, nreq, |bs|);
    forall t | 0 <= t < |bs| ensures keys[t] == Starts(n, bs)[t]
    {
      assert ks[nreq + t] == a.refs[nreq + t];
      assert (done + bs)[nreq + t] == AsBlock(useEnd, n, a.rows[ks[nreq + t]]);
    }
  }

  /** Position before the sort of what stands at position t after it. */
  function Origin(nreq: nat, p: seq<int>, t: nat): int
    requires t < nreq + |p|
  {
    if t < nreq then t else nreq + p[t - nreq]
  }

  /** l is ks with the part behind nreq reordered. */
  ghost predicate IsMoved(nreq: nat, p: seq<int>, ks: seq<int>, l: seq<int>)
  {
    |ks| == |l| == nreq + |p| &&
    forall t {:trigger l[t]} :: 0 <= t < |l| ==> 0 <= Origin(nreq, p, t) < |ks| && l[t] == ks[Origin(nreq, p, t)]
  }

  lemma SortedBlocks(useEnd: bool, n: nat, a: Slots, nreq: nat, bs: seq<Block>, done: seq<Block>)
    requires SlotsOk(n, a) && AllWF(n, bs) && Holding(useEnd, n, a, nreq + |bs|, done + bs) && |done| == nreq
    ensures var b := SortSlots(n, a, nreq, |bs|);
            b.refs == Reordered(a.refs, nreq, StdOrder(Starts(n, bs), |bs|)) && Holding(useEnd, n, b, nreq + |bs|, done + Arrange(n, bs))
  {
    hide StdOrder, SameRank, SlotsOk, SortSlots, WF, CellOk, Starts, KeysAt, IsPerm, OrderedBy, Arrange, Holding, Reordered;
    OrderFacts(n, bs);
    ArrangedAt(n, bs);
    StoredKeys(useEnd, n, a, nreq, bs, done);
    HoldingFacts(useEnd, n, a, nreq + |bs|, done + bs);
    SlotsSorted(n, a, nreq, bs);
    MovedSlots(useEnd, n, a, SortSlots(n, a, nreq, |bs|), nreq, bs, done, StdOrder(Starts(n, bs), |bs|), Arrange(n, bs));
  }

  /** The slots behind the first nreq ones in another order. */
  lemma MovedSlots(useEnd: bool, n: nat, a: Slots, b: Slots, nreq: nat, bs: seq<Block>, done: seq<Block>, p: seq<int>, r: seq<Block>)
    requires Holding(useEnd, n, a, nreq + |bs|, done + bs) && |done| == nreq && nreq + |bs| <= |a.refs|
    requires |p| == |bs| == |r| && IsPerm(p, |p|) && forall i :: 0 <= i < |bs| ==> 0 <= p[i] < |bs| && r[i] == bs[p[i]]
    requires b == a.(refs := Reordered(a.refs, nreq, p))
    ensures Holding(useEnd, n, b, nreq + |bs|, done + r)
  {
    hide CellOk, AsBlock, IsPerm, BlocksAt, Holding, AllCells, Distinct, Reordered, IsMoved;
    HoldingFacts(useEnd, n, a, nreq + |bs|, done + bs);
    var ks, l := a.refs[..nreq + |bs|], b.refs[..nreq + |bs|];
    ReorderedAt(a.refs, nreq, p);
    SortedDistinct(nreq, p, ks, l);
    MovedHolding(useEnd, n, a.rows, nreq, bs, r, p, done, ks, l);
    IsHolding(useEnd, n, b, nreq + |bs|, done + r);
  }

  lemma SlotsSorted(n: nat, a: Slots, nreq: nat, bs: seq<Block>)
    requires SlotsOk(n, a) && AllWF(n, bs) && nreq + |bs| <= |a.refs| && KeysAt(n, a, nreq, |bs|) == Starts(n, bs)
    requires IsPerm(StdOrder(Starts(n, bs), |bs|), |bs|)
    ensures SortSlots(n, a, nreq, |bs|) == a.(refs := Reordered(a.refs, nreq, StdOrder(Starts(n, bs), |bs|)))
  {
    hide StdOrder, SameRank, IsPerm, OrderedBy, Starts, Reordered;
  }

  lemma HoldingFacts(useEnd: bool, n: nat, s: Slots, len: nat, done: seq<Block>)
    requires Holding(useEnd, n, s, len, done)
    ensures len <= |s.refs| && Distinct(s.refs[..len]) && AllCells(useEnd, n, s.rows, s.refs[..len])
    ensures BlocksAt(useEnd, n, s.rows, s.refs[..len]) == done
  {
  }

  lemma IsHolding(useEnd: bool, n: nat, s: Slots, len: nat, done: seq<Block>)
    requires len <= |s.refs| && Distinct(s.refs[..len]) && AllCells(useEnd, n, s.rows, s.refs[..len])
    requires BlocksAt(useEnd, n, s.rows, s.refs[..len]) == done
    ensures Holding(useEnd, n, s, len, done)
  {
  }

  lemma ReorderedAt(refs: seq<int>, nreq: nat, p: seq<int>)
    requires nreq + |p| <= |refs| && IsPerm(p, |p|)
    ensures IsMoved(nreq, p, refs[..nreq + |p|], Reordered(refs, nreq, p)[..nreq + |p|])
  {
    var r := Reordered(refs, nreq, p);
    var ks, l := refs[..nreq + |p|], r[..nreq + |p|];
    forall t | 0 <= t < |l| ensures 0 <= Origin(nreq, p, t) < |ks| && l[t] == ks[Origin(nreq, p, t)] { assert l[t] == r[t]; }
  }

  lemma SortedDistinct(nreq: nat, p: seq<int>, ks: seq<int>, l: seq<int>)
    requires IsPerm(p, |p|) && Distinct(ks)
    requires IsMoved(nreq, p, ks, l)
    ensures Distinct(l)
  {
    forall t, u | 0 <= t < u < |l| ensures l[t] != l[u]
    {
      var v, w := Origin(nreq, p, t), Origin(nreq, p, u);
      assert l[t] == ks[v] && l[u] == ks[w] && v != w;
      assert v < w ==> ks[v] != ks[w];
    }
  }

  lemma OrderFacts(n: nat, bs: seq<Block>)
    requires AllWF(n, bs)
    ensures var p := StdOrder(Starts(n, bs), |bs|);
            |p| == |bs| && IsPerm(p, |p|) && forall t :: 0 <= t < |p| ==> 0 <= p[t] < |p|
  {
    hide StdOrder, Starts, OrderedBy;
  }

  lemma ArrangedAt(n: nat, bs: seq<Block>)
    requires AllWF(n, bs)
    ensures var p := StdOrder(Starts(n, bs), |bs|);
            |p| == |bs| && forall i :: 0 <= i < |bs| ==> 0 <= p[i] < |bs| && Arrange(n, bs)[i] == bs[p[i]]
  {
  }

  lemma MovedHolding(useEnd: bool, n: nat, rows: seq<Cell>, nreq: nat, bs: seq<Block>, r: seq<Block>, p: seq<int>, done: seq<Block>, ks: seq<int>, l: seq<int>)
    requires |done| == nreq && |ks| == |l| == nreq + |bs| && |p| == |bs| == |r|
    requires AllCells(useEnd, n, rows, ks) && BlocksAt(useEnd, n, rows, ks) == done + bs
    requires forall i :: 0 <= i < |bs| ==> 0 <= p[i] < |bs| && r[i] == bs[p[i]]
    requires IsMoved(nreq, p, ks, l)
    ensures AllCells(useEnd, n, rows, l) && BlocksAt(useEnd, n, rows, l) == done + r
  {
    hide CellOk, AsBlock;
    forall t | 0 <= t < |l| ensures 0 <= l[t] < |rows| && CellOk(useEnd, n, rows[l[t]]) && AsBlock(useEnd, n, rows[l[t]]) == (done + r)[t]
    {
      var u := Origin(nreq, p, t);
      assert l[t] == ks[u] && (done + bs)[u] == AsBlock(useEnd, n, rows[ks[u]]);
      if t < nreq { assert (done + bs)[u] == done[t] == (done + r)[t]; } else { assert (done + bs)[u] == bs[p[t - nreq]] == r[t - nreq]; }
    }
  }

  lemma MergedBlocks(useEnd: bool, n: nat, b: Slots, nreq: nat, bs: seq<Block>, done: seq<Block>)
    requires SlotsOk(n, b) && AllWF(n, bs) && bs != [] && Holding(useEnd, n, b, nreq + |bs|, done + bs) && |done| == nreq
    ensures var r := MergeSlots(useEnd, n, n, b, nreq, |bs|);
            r.len == |MergePasses(n, n, bs)| &&
            r.s.refs == b.refs[..nreq] + MergedRefs(n, n, bs, b.refs[nreq..nreq + |bs|]) + b.refs[nreq + |bs|..] &&
            Holding(useEnd, n, r.s, nreq + r.len, done + MergePasses(n, n, bs))
  {
    hide MergeSlots, CellOk, AsBlock, MergedRefs, MergePasses, BlocksAt, MergeLeaves;
    var ks := b.refs[nreq..nreq + |bs|];
    HoldingParts(useEnd, n, b, nreq, bs, done, ks);
    MergeValue(useEnd, n, n, b, nreq, |bs|, ks);
    var r := MergeSlots(useEnd, n, n, b, nreq, |bs|);
    KeptHolding(useEnd, n, b, r, nreq, bs, done, ks);
  }

  lemma HoldingParts(useEnd: bool, n: nat, b: Slots, nreq: nat, bs: seq<Block>, done: seq<Block>, ks: seq<int>)
    requires AllWF(n, bs) && Holding(useEnd, n, b, nreq + |bs|, done + bs) && |done| == nreq && ks == b.refs[nreq..nreq + |bs|]
    ensures ks[..|bs|] == ks && Distinct(ks) && Distinct(b.refs[..nreq])
    ensures AllCells(useEnd, n, b.rows, b.refs[..nreq]) && BlocksAt(useEnd, n, b.rows, b.refs[..nreq]) == done
    ensures AllCells(useEnd, n, b.rows, ks) && BlocksAt(useEnd, n, b.rows, ks) == bs
  {
    hide CellOk, AsBlock, BlocksAt;
    var all := b.refs[..nreq + |bs|];
    assert all[nreq..] == ks && all[..nreq] == b.refs[..nreq];
    BlocksTail(useEnd, n, b.rows, all, nreq);
    assert (done + bs)[nreq..] == bs && (done + bs)[..nreq] == done;
    DistinctParts(all, nreq);
  }

  lemma DistinctParts(all: seq<int>, k: nat)
    requires Distinct(all) && k <= |all|
    ensures Distinct(all[k..]) && Distinct(all[..k]) && forall t, u :: 0 <= t < k <= u < |all| ==> all[t] != all[u]
  {
  }

  lemma KeptHolding(useEnd: bool, n: nat, b: Slots, r: Merged, nreq: nat, bs: seq<Block>, done: seq<Block>, ks: seq<int>)
    requires AllWF(n, bs) && |bs| == |ks| && nreq + |bs| <= |b.refs| && ks == b.refs[nreq..nreq + |bs|]
    requires Distinct(b.refs[..nreq + |bs|]) && AllCells(useEnd, n, b.rows, b.refs[..nreq]) && BlocksAt(useEnd, n, b.rows, b.refs[..nreq]) == done
    requires AllCells(useEnd, n, b.rows, ks[..|bs|]) && BlocksAt(useEnd, n, b.rows, ks[..|bs|]) == bs
    requires MergeLeaves(useEnd, n, n, b, r, nreq, |bs|, ks)
    ensures r.len == |MergePasses(n, n, bs)| && r.s.refs == b.refs[..nreq] + MergedRefs(n, n, bs, ks) + b.refs[nreq + |bs|..]
    ensures nreq + r.len <= |r.s.refs| && Holding(useEnd, n, r.s, nreq + r.len, done + MergePasses(n, n, bs))
  {
    hide CellOk, AsBlock, MergedRefs, MergePasses, BlocksAt, Distinct, AllCells;
    var f, k := b.refs[..nreq], r.s.refs[nreq..nreq + r.len];
    assert r.s.refs[..nreq] == f && r.s.refs[..nreq + r.len] == f + k && ks[..|bs|] == ks;
    Elsewhere(b.refs[..nreq + |bs|], nreq, f, ks);
    JoinHolding(useEnd, n, b.rows, r.s.rows, f, k, ks);
    DistinctJoin(f, k, ks);
  }

  lemma Elsewhere(all: seq<int>, k: nat, f: seq<int>, ks: seq<int>)
    requires Distinct(all) && k <= |all| && f == all[..k] && ks == all[k..]
    ensures Distinct(f) && forall t :: 0 <= t < |f| ==> f[t] !in ks
  {
    DistinctParts(all, k);
    forall t | 0 <= t < |f| ensures f[t] !in ks
    {
      forall u | 0 <= u < |ks| ensures f[t] != ks[u] { assert all[t] != all[k + u]; }
    }
  }

  lemma DistinctJoin(f: seq<int>, k: seq<int>, ks: seq<int>)
    requires Distinct(f) && Distinct(k) && (forall x :: x in k ==> x in ks) && forall t :: 0 <= t < |f| ==> f[t] !in ks
    ensures Distinct(f + k)
  {
    var s := f + k;
    forall t, u | 0 <= t < u < |s| ensures s[t] != s[u]
    {
      if t < |f| <= u { assert s[u] in k; }
    }
  }

  lemma JoinHolding(useEnd: bool, n: nat, was: seq<Cell>, rows: seq<Cell>, f: seq<int>, k: seq<int>, ks: seq<int>)
    requires AllCells(useEnd, n, was, f) && AllCells(useEnd, n, rows, k) && |rows| == |was|
    requires (forall t :: 0 <= t < |f| ==> f[t] !in ks) && forall y :: 0 <= y < |was| && y !in ks ==> rows[y] == was[y]
    ensures AllCells(useEnd, n, rows, f + k) && BlocksAt(useEnd, n, rows, f + k) == BlocksAt(useEnd, n, was, f) + BlocksAt(useEnd, n, rows, k)
  {
    hide CellOk, AsBlock;
    var s := f + k;
    forall t | 0 <= t < |s| ensures 0 <= s[t] < |rows| && CellOk(useEnd, n, rows[s[t]]) && (t < |f| ==> rows[s[t]] == was[s[t]])
    {
      if t < |f| { assert s[t] == f[t]; } else { assert s[t] == k[t - |f|]; }
    }
  }

  /** A group whose slots share no row adds its canonical blocks. */
  lemma RunClean(n: nat, s: Slots, nreq: nat, run: seq<Block>, done: seq<Block>)
    requires n > 0 && SlotsOk(n, s) && AllWF(n, run) && run != [] && nreq + |Pieces(n, run)| <= |s.refs|
    requires Holding(false, n, s, nreq, done) && Distinct(s.refs[..nreq + |Pieces(n, run)|])
    ensures var r := RunStep(n, s, nreq, run);
            r.len == nreq + |EmitRun(n, run)| && r.s.refs == RunRefs(n, s.refs, nreq, run) && Holding(false, n, r.s, r.len, done + EmitRun(n, run))
  {
    hide Store, SortSlots, MergeSlots, MergedRefs, MergePasses, Arrange, Holding, AllRows, Distinct;
    var bs := Pieces(n, run);
    PiecesExist(n, run);
    StoredBlocks(n, s, nreq, bs, done);
    HoldingLen(false, n, s, nreq, done);
    if |run| > 1 {
      var a := Store(n, s, nreq, CellsOf(bs));
      SortedBlocks(false, n, a, nreq, bs, done);
      MergedBlocks(false, n, SortSlots(n, a, nreq, |bs|), nreq, Arrange(n, bs), done);
    }
  }

  lemma HoldingLen(useEnd: bool, n: nat, s: Slots, len: nat, done: seq<Block>)
    requires Holding(useEnd, n, s, len, done)
    ensures |done| == len
  {
  }

  /** If every group is clean, the slots hold the canonical list. */
  lemma {:induction false} FillClean(n: nat, g: seq<Block>, s: Slots, nreq: nat, done: seq<Block>)
    requires n > 0 && SlotsOk(n, s) && AllWF(n, g) && nreq + Need(n, g) <= |s.refs|
    requires Holding(false, n, s, nreq, done) && CleanFrom(n, g, s.refs, nreq)
    ensures var r := FillFrom(n, g, s, nreq); Holding(false, n, r.s, r.len, done + Emit(n, g))
    decreases |g|
  {
    hide RunStep, RunRefs, Holding, EmitRun, Pieces, Distinct;
    if g == [] {
      assert done + Emit(n, g) == done;
    } else {
      var k := RunLen(n, g);
      RunClean(n, s, nreq, g[..k], done);
      var r := RunStep(n, s, nreq, g[..k]);
      FillClean(n, g[k..], r.s, r.len, done + EmitRun(n, g[..k]));
      EmitSplits(n, g);
      ConcatAssoc(done, EmitRun(n, g[..k]), Emit(n, g[k..]));
    }
  }

  lemma EmitSplits(n: nat, g: seq<Block>)
    requires n > 0 && AllWF(n, g) && g != []
    ensures Emit(n, g) == EmitRun(n, g[..RunLen(n, g)]) + Emit(n, g[RunLen(n, g)..])
  {
    assert Emit(n, g) == EmitGroups(n, g);
  }

  // ----- a group that is not clean -----

  /** Blocks a and blocks b have no element in common. */
  ghost predicate Separate(n: nat, a: seq<Block>, b: seq<Block>)
    requires AllWF(n, a) && AllWF(n, b)
  {
    forall c :: Covers(n, a, c) ==> !Covers(n, b, c)
  }

  lemma SeparateJoin(n: nat, a: seq<Block>, b: seq<Block>)
    requires AllWF(n, a) && AllWF(n, b) && Disjoint(n, a) && Disjoint(n, b) && Separate(n, a, b)
    ensures AllWF(n, a + b) && Disjoint(n, a + b)
  {
    hide InBox;
    var s := a + b;
    forall i | 0 <= i < |s| ensures WF(n, s[i]) {}
    forall i, j | 0 <= i < j < |s| ensures Apart(s[i], s[j])
    {
      if i < |a| <= j {
        forall c | InBox(c, s[i]) ensures !InBox(c, s[j])
        {
          assert a[i] == s[i] && b[j - |a|] == s[j];
          assert Covers(n, a, c) && !Covers(n, b, c);
        }
      } else if j < |a| {
        assert Apart(a[i], a[j]);
      } else {
        assert Apart(b[i - |a|], b[j - |a|]);
      }
    }
  }

  /** Two slots that the group uses share a row: the block written first, or kept, is lost. */
  lemma StoreLoses(n: nat, s: Slots, nreq: nat, bs: seq<Block>, done: seq<Block>, u: nat, v: nat)
    requires SlotsOk(n, s) && AllWF(n, bs) && AllRanked(n, CellsOf(bs)) && nreq + |bs| <= |s.refs|
    requires Holding(false, n, s, nreq, done) && AllWF(n, done + bs) && Disjoint(n, done + bs)
    requires u < v < nreq + |bs| && s.refs[u] == s.refs[v] && |done| == nreq
    ensures Avoids(n, Store(n, s, nreq, CellsOf(bs)), nreq + |bs|, (done + bs)[u].start)
  {
    hide Store, InBox, CellOk, AsBlock;
    var xs, all := CellsOf(bs), done + bs;
    var a, c := Store(n, s, nreq, xs), all[u].start;
    SharedIsWritten(s.refs, nreq, u, v);
    forall t | 0 <= t < nreq + |bs| ensures RowAvoids(a.rows[a.refs[t]], c)
    {
      var x := StoreRow(n, s, nreq, xs, s.refs[t]);
      if x != -1 {
        assert nreq + x != u;
        assert all[nreq + x] == bs[x];
        OtherAvoids(n, all, u, nreq + x, xs[x]);
      } else {
        assert t < nreq && t != u;
        HeldCell(n, s, nreq, done, t);
        OtherAvoids(n, all, u, t, s.rows[s.refs[t]]);
      }
    }
  }

  lemma SharedIsWritten(refs: seq<int>, nreq: nat, u: nat, v: nat)
    requires u < v < |refs| && refs[u] == refs[v] && nreq <= |refs| && Distinct(refs[..nreq])
    ensures nreq <= v
  {
    if v < nreq { Differ(refs[..nreq], u, v); }
  }

  lemma HeldCell(n: nat, s: Slots, len: nat, done: seq<Block>, t: nat)
    requires Holding(false, n, s, len, done) && t < len
    ensures |done| == len && 0 <= s.refs[t] < |s.rows| && CellOk(false, n, s.rows[s.refs[t]])
    ensures done[t] == Block(s.rows[s.refs[t]].start, s.rows[s.refs[t]].ext)
  {
    var ks := s.refs[..len];
    assert ks[t] == s.refs[t] && done[t] == AsBlock(false, n, s.rows[ks[t]]);
  }

  lemma OtherAvoids(n: nat, all: seq<Block>, u: nat, w: nat, x: Cell)
    requires AllWF(n, all) && Disjoint(n, all) && u < |all| && w < |all| && u != w
    requires |x.start| == |x.ext| && all[w] == Block(x.start, x.ext)
    ensures RowAvoids(x, all[u].start)
  {
    assert InBox(all[u].start, all[u]);
    assert if u < w then Apart(all[u], all[w]) else Apart(all[w], all[u]);
  }

  lemma SortAvoids(n: nat, s: Slots, off: nat, len: nat, hi: nat, c: Coord)
    requires SlotsOk(n, s) && off + len <= hi && Avoids(n, s, hi, c)
    ensures Avoids(n, SortSlots(n, s, off, len), hi, c)
  {
    hide StdOrder, RowAvoids, OrderedBy, Starts;
    var r := SortSlots(n, s, off, len);
    forall t | 0 <= t < hi ensures RowAvoids(r.rows[r.refs[t]], c)
    {
      if off <= t < off + len { assert r.refs[t] == s.refs[off + StdOrder(KeysAt(n, s, off, len), len)[t - off]]; } else { assert r.refs[t] == s.refs[t]; }
    }
  }

  lemma AvoidsFewer(n: nat, s: Slots, hi: nat, lo: nat, c: Coord)
    requires SlotsOk(n, s) && Avoids(n, s, hi, c) && lo <= hi
    ensures Avoids(n, s, lo, c)
  {
  }

  /** What the writes avoid, the group avoids. */
  lemma RestAvoids(n: nat, s: Slots, nreq: nat, run: seq<Block>, c: Coord)
    requires n > 0 && SlotsOk(n, s) && AllWF(n, run) && run != [] && nreq + |Pieces(n, run)| <= |s.refs|
    requires AllRanked(n, CellsOf(Pieces(n, run)))
    requires Avoids(n, Store(n, s, nreq, CellsOf(Pieces(n, run))), nreq + |Pieces(n, run)|, c)
    ensures var r := RunStep(n, s, nreq, run); Avoids(n, r.s, r.len, c)
  {
    hide Store, SortSlots, MergeSlots, Avoids, AllRows;
    var m := |Pieces(n, run)|;
    PiecesExist(n, run);
    if |run| > 1 {
      var a := Store(n, s, nreq, CellsOf(Pieces(n, run)));
      SortAvoids(n, a, nreq, m, nreq + m, c);
      var b := SortSlots(n, a, nreq, m);
      MergeAvoids(n, n, b, nreq, m, nreq + m, c);
      var r := MergeSlots(false, n, n, b, nreq, m);
      AvoidsFewer(n, r.s, nreq + m, nreq + r.len, c);
    }
  }

  /** A later group brings no element back that is not its own. */
  lemma RunAvoids(n: nat, s: Slots, nreq: nat, run: seq<Block>, c: Coord)
    requires n > 0 && SlotsOk(n, s) && AllWF(n, run) && run != [] && nreq + |Pieces(n, run)| <= |s.refs|
    requires Avoids(n, s, nreq, c) && !Covers(n, Pieces(n, run), c)
    ensures var r := RunStep(n, s, nreq, run); Avoids(n, r.s, r.len, c)
  {
    hide Store, RunStep, AllRows, InBox;
    var bs := Pieces(n, run);
    var xs := CellsOf(bs);
    PiecesExist(n, run);
    var a := Store(n, s, nreq, xs);
    forall t | 0 <= t < nreq + |bs| ensures RowAvoids(a.rows[a.refs[t]], c)
    {
      var x := StoreRow(n, s, nreq, xs, s.refs[t]);
      if x != -1 { assert xs[x] == Cell(bs[x].start, bs[x].count) && !InBox(c, bs[x]); }
    }
    RestAvoids(n, s, nreq, run, c);
  }

  lemma PiecesCover(n: nat, run: seq<Block>, c: Coord)
    requires n > 0 && AllWF(n, run) && run != []
    ensures Covers(n, Pieces(n, run), c) <==> Covers(n, run, c)
  {
    if |run| > 1 {
      AllRowsTrav(n, run);
      CoversTrav(n, run, c);
      CoversTrav(n, AllRows(n, run), c);
    }
  }

  lemma {:induction false} FillAvoids(n: nat, g: seq<Block>, s: Slots, nreq: nat, c: Coord)
    requires n > 0 && SlotsOk(n, s) && AllWF(n, g) && nreq + Need(n, g) <= |s.refs|
    requires Avoids(n, s, nreq, c) && !Covers(n, g, c)
    ensures var r := FillFrom(n, g, s, nreq); Avoids(n, r.s, r.len, c)
    decreases |g|
  {
    hide RunStep, Avoids, Pieces, Covers;
    if g != [] {
      var k := RunLen(n, g);
      SplitFacts(n, g, k);
      PiecesCover(n, g[..k], c);
      RunAvoids(n, s, nreq, g[..k], c);
      var r := RunStep(n, s, nreq, g[..k]);
      FillAvoids(n, g[k..], r.s, r.len, c);
    }
  }

  lemma PiecesDisjoint(n: nat, run: seq<Block>)
    requires n > 0 && AllWF(n, run) && run != [] && Disjoint(n, run)
    ensures Disjoint(n, Pieces(n, run))
  {
    if |run| > 1 {
      AllRowsTrav(n, run);
      DisjointNoRepeat(n, run);
      DisjointNoRepeat(n, AllRows(n, run));
    }
  }

  /** A group that is not clean loses an element. */
  lemma RunLoses(n: nat, s: Slots, nreq: nat, run: seq<Block>, done: seq<Block>) returns (c: Coord)
    requires n > 0 && SlotsOk(n, s) && AllWF(n, run) && run != [] && nreq + |Pieces(n, run)| <= |s.refs|
    requires Holding(false, n, s, nreq, done) && AllWF(n, done) && Disjoint(n, done) && Disjoint(n, run) && Separate(n, done, run)
    requires !Distinct(s.refs[..nreq + |Pieces(n, run)|])
    ensures var r := RunStep(n, s, nreq, run); Avoids(n, r.s, r.len, c)
    ensures Covers(n, done, c) || Covers(n, run, c)
  {
    hide RunStep, Store, Pieces, Covers, InBox, Holding, Disjoint;
    var bs := Pieces(n, run);
    PiecesExist(n, run);
    PiecesDisjoint(n, run);
    forall x | Covers(n, done, x) ensures !Covers(n, bs, x) { PiecesCover(n, run, x); }
    SeparateJoin(n, done, bs);
    HoldingLen(false, n, s, nreq, done);
    var ks := s.refs[..nreq + |bs|];
    var u, v :| 0 <= u < v < |ks| && ks[u] == ks[v];
    StoreLoses(n, s, nreq, bs, done, u, v);
    RestAvoids(n, s, nreq, run, (done + bs)[u].start);
    c := (done + bs)[u].start;
    StartCovered(n, done + bs, u);
    CoversSplit(n, done, bs, c);
    PiecesCover(n, run, c);
  }

  lemma StartCovered(n: nat, bs: seq<Block>, u: nat)
    requires AllWF(n, bs) && u < |bs|
    ensures Covers(n, bs, bs[u].start)
  {
    assert WF(n, bs[u]) && InBox(bs[u].start, bs[u]);
  }

  lemma EmittedFacts(n: nat, run: seq<Block>)
    requires n > 0 && AllWF(n, run) && run != [] && Disjoint(n, run)
    ensures Disjoint(n, EmitRun(n, run)) && forall c :: Covers(n, EmitRun(n, run), c) <==> Covers(n, run, c)
  {
    hide EmitRun, Covers, InBox, Trav;
    EmitRunTrav(n, run);
    IncreasingNoRepeat(TravAll(EmitRun(n, run)));
    DisjointNoRepeat(n, EmitRun(n, run));
    forall c ensures Covers(n, EmitRun(n, run), c) <==> Covers(n, run, c) { CoversTrav(n, EmitRun(n, run), c); }
  }

  lemma SplitSeparate(n: nat, done: seq<Block>, g: seq<Block>, k: nat)
    requires AllWF(n, done) && AllWF(n, g) && k <= |g| && Disjoint(n, g) && Separate(n, done, g)
    ensures AllWF(n, g[..k]) && AllWF(n, g[k..]) && Separate(n, done, g[..k]) && Separate(n, done, g[k..]) && Separate(n, g[..k], g[k..])
  {
    hide InBox;
    SplitFacts(n, g, k);
    forall c | Covers(n, g[..k], c) ensures !Covers(n, g[k..], c)
    {
      var i :| 0 <= i < |g[..k]| && InBox(c, g[..k][i]);
      forall j | 0 <= j < |g[k..]| ensures !InBox(c, g[k..][j]) { assert Apart(g[i], g[k + j]); }
    }
  }

  /** If some group is not clean, an element of the selection is lost. */
  lemma {:induction false} FillLoses(n: nat, g: seq<Block>, s: Slots, nreq: nat, done: seq<Block>) returns (c: Coord)
    requires n > 0 && SlotsOk(n, s) && AllWF(n, g) && nreq + Need(n, g) <= |s.refs|
    requires Holding(false, n, s, nreq, done) && AllWF(n, done) && Disjoint(n, done) && Disjoint(n, g) && Separate(n, done, g)
    requires !CleanFrom(n, g, s.refs, nreq)
    ensures var r := FillFrom(n, g, s, nreq); Avoids(n, r.s, r.len, c)
    ensures Covers(n, done, c) || Covers(n, g, c)
    decreases |g|
  {
    hide RunStep, RunRefs, Holding, EmitRun, Pieces, Distinct, Covers, Disjoint, Avoids, RunLen;
    var k := RunLen(n, g);
    var run, rest := g[..k], g[k..];
    SplitFacts(n, g, k);
    SplitSeparate(n, done, g, k);
    var r := RunStep(n, s, nreq, run);
    if !Distinct(s.refs[..nreq + |Pieces(n, run)|]) {
      c := RunLoses(n, s, nreq, run, done);
      NotCovered(n, done, run, rest, c);
      FillAvoids(n, rest, r.s, r.len, c);
    } else {
      RunClean(n, s, nreq, run, done);
      EmittedFacts(n, run);
      var next := done + EmitRun(n, run);
      NextSeparate(n, done, run, rest);
      c := FillLoses(n, rest, r.s, r.len, next);
      CoversSplit(n, done, EmitRun(n, run), c);
    }
  }

  lemma NotCovered(n: nat, done: seq<Block>, run: seq<Block>, rest: seq<Block>, c: Coord)
    requires AllWF(n, done) && AllWF(n, run) && AllWF(n, rest) && Separate(n, done, rest) && Separate(n, run, rest)
    requires Covers(n, done, c) || Covers(n, run, c)
    ensures !Covers(n, rest, c)
  {
  }

  lemma NextSeparate(n: nat, done: seq<Block>, run: seq<Block>, rest: seq<Block>)
    requires n > 0 && AllWF(n, done) && AllWF(n, run) && run != [] && AllWF(n, rest) && Disjoint(n, done) && Disjoint(n, run)
    requires Separate(n, done, run) && Separate(n, done, rest) && Separate(n, run, rest)
    ensures var next := done + EmitRun(n, run); AllWF(n, next) && Disjoint(n, next) && Separate(n, next, rest)
  {
    hide EmitRun, Covers, Disjoint;
    EmittedFacts(n, run);
    forall c | Covers(n, done, c) ensures !Covers(n, EmitRun(n, run), c) {}
    SeparateJoin(n, done, EmitRun(n, run));
    forall c | Covers(n, done + EmitRun(n, run), c) ensures !Covers(n, rest, c) { CoversSplit(n, done, EmitRun(n, run), c); }
  }

  // ----- the selection -----

  lemma FreshHolds(n: nat, room: nat)
    ensures Holding(false, n, Fresh(n, room), 0, [])
  {
  }

  lemma ShownHeld(n: nat, s: Slots, len: nat, done: seq<Block>)
    requires SlotsOk(n, s) && Holding(false, n, s, len, done)
    ensures Shown(s, len) == done
  {
    hide CellOk;
    HoldingLen(false, n, s, len, done);
    forall t | 0 <= t < len ensures Shown(s, len)[t] == done[t] { HeldCell(n, s, len, done, t); }
  }

  lemma ShownShaped(n: nat, s: Slots, len: nat)
    requires SlotsOk(n, s) && len <= |s.refs|
    ensures Shaped(Shown(s, len)) && forall t :: 0 <= t < len ==> |Shown(s, len)[t].start| == n
  {
  }

  lemma ResultShaped(n: nat, spans: seq<Block>)
    requires n > 0 && AllWF(n, spans)
    ensures Shaped(Result(n, spans))
  {
    hide FillFrom, Prepared, Shown;
    var g := Prepared(n, spans);
    var r := FillFrom(n, g, Fresh(n, Need(n, g)), 0);
    ShownShaped(n, r.s, r.len);
  }

  lemma AvoidedIsGone(n: nat, s: Slots, len: nat, c: Coord)
    requires SlotsOk(n, s) && Avoids(n, s, len, c)
    ensures Shaped(Shown(s, len)) && c !in TravAll(Shown(s, len))
  {
    hide InBox;
    ShownShaped(n, s, len);
    TravAllMember(Shown(s, len), c);
    forall t | 0 <= t < len ensures !InBox(c, Shown(s, len)[t]) { assert RowAvoids(s.rows[s.refs[t]], c); }
  }

  /** The program makes the canonical list exactly if every group finds slots that share no row; otherwise an
      element of the selection is lost. */
  lemma ResultExactly(n: nat, spans: seq<Block>)
    requires n > 0 && AllWF(n, spans) && Disjoint(n, spans)
    ensures Shaped(Result(n, spans)) && (Result(n, spans) == Canonical(n, spans) <==> Clean(n, spans))
    ensures Clean(n, spans) <==> forall c :: c in TravAll(Result(n, spans)) <==> Covers(n, spans, c)
    ensures !Clean(n, spans) ==> exists c :: Covers(n, spans, c) && c !in TravAll(Result(n, spans))
  {
    hide FillFrom, Prepared, Covers, Holding, Avoids, CleanFrom, Emit, Disjoint, Shown;
    var g := Prepared(n, spans);
    var s := Fresh(n, Need(n, g));
    var r := FillFrom(n, g, s, 0);
    ResultShaped(n, spans);
    PreparedFacts(n, spans);
    CanonicalExact(n, spans);
    FreshHolds(n, Need(n, g));
    if CleanFrom(n, g, s.refs, 0) {
      FillClean(n, g, s, 0, []);
      assert [] + Emit(n, g) == Emit(n, g);
      ShownHeld(n, r.s, r.len, Emit(n, g));
    } else {
      NothingSeparate(n, g);
      var c := FillLoses(n, g, s, 0, []);
      AvoidedIsGone(n, r.s, r.len, c);
      assert !Covers(n, [], c) by { NothingCovered(n, c); }
      assert Covers(n, spans, c) && c !in TravAll(Result(n, spans));
    }
  }

  lemma NothingCovered(n: nat, c: Coord)
    ensures !Covers(n, [], c)
  {
  }

  lemma NothingSeparate(n: nat, g: seq<Block>)
    requires AllWF(n, g)
    ensures AllWF(n, []) && Disjoint(n, []) && Separate(n, [], g)
  {
  }
}
