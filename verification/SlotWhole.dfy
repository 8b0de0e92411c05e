/** What the canonicaliser joins: in one dimension the list has as few blocks as possible, and the slices of a block come
    out as the block. */
module SlotWhole {
  import opened Grid
  import opened Rows
  import opened BlockSort
  import opened BlockMerge
  import opened MergeFull
  import opened CanonicalForm
  import opened SlotFill
  import opened SlotSafe
  import SlotLoss

  /** A list in which each block starts behind the end of the one before is not broken down. */
  lemma {:induction false} SinglesEmitted(n: nat, g: seq<Block>)
    requires n > 0 && AllWF(n, g) && forall i :: 0 <= i < |g| - 1 ==> Less(Last(g[i]), g[i + 1].start)
    ensures Emit(n, g) == g
    decreases |g|
  {
    hide Less;
    if g != [] {
      if |g| > 1 { assert Less(Last(g[0]), g[0 + 1].start); }
      forall i | 0 <= i < |g[1..]| - 1 ensures Less(Last(g[1..][i]), g[1..][i + 1].start) { assert Less(Last(g[i + 1]), g[i + 1 + 1].start); }
      SinglesEmitted(n, g[1..]);
      assert g[..1] == [g[0]] && g == [g[0]] + g[1..];
    }
  }

  // ----- intervals -----

  lemma Gap(g: seq<Block>, i: nat)
    requires AllWF(1, g) && Disjoint(1, g) && KeysIncrease(1, false, g) && Settled(1, 0, g) && i + 1 < |g|
    ensures g[i].start[0] + g[i].count[0] < g[i + 1].start[0]
  {
    var a, b := g[i], g[i + 1];
    OneDimensionApart(g, i);
    assert Last(a)[0] < b.start[0];
    if a.start[0] + a.count[0] == b.start[0] {
      assert a.start[..0] == b.start[..0] && a.start[1..] == b.start[1..] && a.count[..0] == b.count[..0] && a.count[1..] == b.count[1..];
      assert EndsAtStart(1, 0, a, b);
    }
  }

  lemma PreparedSettled(spans: seq<Block>)
    requires AllWF(1, spans)
    ensures Settled(1, 0, Prepared(1, spans))
  {
    hide MergePass, Arrange, Settled;
    var s := Arrange(1, MergePasses(1, 1, spans));
    PassApart(1, 0, s);
    assert MergePasses(1, 1, s) == MergePasses(1, 0, MergePass(1, 0, s)) == MergePass(1, 0, s);
  }

  /** In one dimension the program's list consists of intervals in increasing order with a gap between any two that follow
      one another. */
  lemma RankOneIntervals(spans: seq<Block>)
    requires AllWF(1, spans) && Disjoint(1, spans)
    ensures var r := Result(1, spans);
            AllWF(1, r) && (forall i :: 0 <= i < |r| - 1 ==> r[i].start[0] + r[i].count[0] < r[i + 1].start[0]) &&
            forall c :: c in TravAll(r) <==> Covers(1, spans, c)
  {
    hide Less, Prepared, Result, Clean, Emit, Disjoint, KeysIncrease, Settled, Covers;
    var g := Prepared(1, spans);
    PreparedFacts(1, spans);
    PreparedSettled(spans);
    RankOneIsClean(spans);
    ResultExactly(1, spans);
    forall i | 0 <= i < |g| - 1 ensures Less(Last(g[i]), g[i + 1].start) && g[i].start[0] + g[i].count[0] < g[i + 1].start[0]
    {
      OneDimensionApart(g, i);
      Gap(g, i);
    }
    SinglesEmitted(1, g);
    assert Result(1, spans) == Canonical(1, spans) == g;
  }

  // ----- slices of a block -----

  lemma OneArranged(n: nat, b: Block)
    requires WF(n, b)
    ensures Arrange(n, [b]) == [b]
  {
    hide StdOrder;
    OrderFacts(n, [b]);
    ArrangedAt(n, [b]);
  }

  lemma SlicesPrepared(n: nat, k: nat, b: Block)
    requires WF(n, b) && k <= n
    ensures AllWF(n, Slices(k, b)) && Prepared(n, Slices(k, b)) == [b]
  {
    hide MergePasses, Arrange;
    SlicesMerge(n, n, k, b);
    OneArranged(n, b);
    SlicesMerge(n, n, 0, b);
    assert Slices(0, b) == [b];
  }

  /** A block that is delivered in slices along its first k dimensions comes out as one block. */
  lemma SlicesComeOut(n: nat, k: nat, b: Block)
    requires n > 0 && WF(n, b) && k <= n && AllWF(n, Slices(k, b)) && Disjoint(n, Slices(k, b))
    ensures Result(n, Slices(k, b)) == [b]
  {
    hide Prepared, Result, Clean, Disjoint;
    SlicesPrepared(n, k, b);
    NoEarlierMergeIsClean(n, Slices(k, b));
    ResultExactly(n, Slices(k, b));
    SinglesEmitted(n, [b]);
  }

  // ----- both merges -----

  /** Elements (0, 0) and (1, 0), and column 1 of rows 0 and 1. */
  function Unsorted(): (spans: seq<Block>)
    ensures AllWF(2, spans)
  {
    [Block([0, 0], [1, 1]), Block([1, 0], [1, 1]), Block([0, 1], [2, 1])]
  }

  /** The merge before the sort joins the first two, the one after it joins the result with the third. */
  lemma BothMergesCount()
    ensures Prepared(2, Unsorted()) == [Block([0, 0], [2, 2])]
  {
    hide Union, MergePasses, Arrange;
    var s := Unsorted();
    var a, b, c := s[0], s[1], s[2];
    var t, u := Block([0, 0], [2, 1]), Block([0, 0], [2, 2]);
    JoinRows();
    assert !Adjacent(a, b, 1) && !Adjacent(b, c, 1) && !Adjacent(t, c, 0);
    PassOfThree(2, 1, a, b, c);
    assert MergePass(2, 0, s) == MergePass(2, 0, [t, c]) by { assert s[2..] == [c] && [t] + [c] == [t, c]; }
    PassOfTwo(2, 0, t, c);
    PassTwice(s, [t, c]);
    TwoArranged(t, c);
    assert MergePass(2, 1, [t, c]) == [u] by { assert [t, c][2..] == [] && [u] + [] == [u]; }
    PassTwice([t, c], [u]);
  }

  lemma JoinRows()
    ensures var (a, b, c, t) := (Unsorted()[0], Unsorted()[1], Unsorted()[2], Block([0, 0], [2, 1]));
            Adjacent(a, b, 0) && Union(a, b, 0) == t && Adjacent(t, c, 1) && Union(t, c, 1) == Block([0, 0], [2, 2])
  {
    assert [1, 1][0 := 2] == [2, 1] && [2, 1][1 := 2] == [2, 2];
  }

  lemma PassOfTwo(n: nat, d: nat, a: Block, b: Block)
    requires d < n && WF(n, a) && WF(n, b) && !Adjacent(a, b, d)
    ensures MergePass(n, d, [a, b]) == [a, b]
  {
    assert [a, b][1..] == [b];
  }

  lemma PassOfThree(n: nat, d: nat, a: Block, b: Block, c: Block)
    requires d < n && WF(n, a) && WF(n, b) && WF(n, c) && !Adjacent(a, b, d) && !Adjacent(b, c, d)
    ensures MergePass(n, d, [a, b, c]) == [a, b, c]
  {
    assert [a, b, c][1..] == [b, c];
    PassOfTwo(n, d, b, c);
  }

  /** Both passes of rank two. */
  lemma PassTwice(s: seq<Block>, r: seq<Block>)
    requires AllWF(2, s) && MergePass(2, 0, MergePass(2, 1, s)) == r
    ensures MergePasses(2, 2, s) == r
  {
    hide MergePass;
    assert MergePasses(2, 2, s) == MergePasses(2, 1, MergePass(2, 1, s)) == MergePasses(2, 0, MergePass(2, 0, MergePass(2, 1, s)));
  }

  lemma TwoArranged(a: Block, b: Block)
    requires WF(2, a) && WF(2, b) && a.start == [0, 0] && b.start == [0, 1]
    ensures Arrange(2, [a, b]) == [a, b]
  {
    hide StdOrder, Less;
    SlotLoss.LessAt(a.start, b.start, 1);
    ArrangeSorts(2, [a, b]);
    SortedCopyFacts(2, [a, b], Arrange(2, [a, b]), StdOrder(Starts(2, [a, b]), 2));
    SortUnique(2, [a, b], Arrange(2, [a, b]));
  }
}
