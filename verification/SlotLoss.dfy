/** A selection in HDF5's span order of which the program loses elements. */
module SlotLoss {
  import opened Grid
  import opened Rows
  import opened BlockSort
  import opened BlockMerge
  import opened SlotMerge
  import opened CanonicalForm
  import opened SlotFill
  import opened SlotSafe

  /** The element at (x, y, 0). */
  function Dot(x: nat, y: nat): Block { Block([x, y, 0], [1, 1, 1]) }

  function Pair(x: nat, y: nat): Block { Block([x, y, 0], [1, 2, 1]) }

  /** Column 0 and columns 2 to 3 of rows 0 and 1, and the element (3, 0). */
  function Lossy(): (spans: seq<Block>)
    ensures AllWF(3, spans)
  {
    [Block([0, 0, 0], [2, 1, 1]), Block([0, 2, 0], [2, 2, 1]), Dot(3, 0)]
  }

  function Single(): (g: seq<Block>)
    ensures AllWF(3, g)
  {
    [Dot(3, 0)]
  }

  /** The rows of the first group, in the order in which they are written, and sorted. */
  function Written(): (bs: seq<Block>)
    ensures AllWF(3, bs)
  {
    [Dot(0, 0), Dot(1, 0), Dot(0, 2), Dot(0, 3), Dot(1, 2), Dot(1, 3)]
  }

  function Sorted(): (bs: seq<Block>)
    ensures AllWF(3, bs)
  {
    [Dot(0, 0), Dot(0, 2), Dot(0, 3), Dot(1, 0), Dot(1, 2), Dot(1, 3)]
  }

  function Kept(): (bs: seq<Block>)
    ensures AllWF(3, bs)
  {
    [Dot(0, 0), Pair(0, 2), Dot(1, 0), Pair(1, 2)]
  }

  lemma LessAt(a: Coord, b: Coord, k: nat)
    requires k < |a| == |b| && a[..k] == b[..k] && a[k] < b[k]
    ensures Less(a, b) && !Less(b, a)
  {
    LessByPrefix(a, b, k);
    LessAsym(a, b);
  }

  lemma SpanOrder()
    ensures Disjoint(3, Lossy()) && KeysIncrease(3, false, Lossy()) && KeysIncrease(3, true, Lossy())
    ensures Less(Last(Lossy()[1]), Lossy()[2].start) && !Less(Last(Lossy()[0]), Lossy()[1].start)
  {
    hide Less;
    var a, b, c := Lossy()[0], Lossy()[1], Lossy()[2];
    assert Apart(a, b) by { forall x | InBox(x, a) ensures !InBox(x, b) { assert x[1] < a.start[1] + a.count[1]; } }
    assert Apart(a, c) by { forall x | InBox(x, a) ensures !InBox(x, c) { assert x[0] < a.start[0] + a.count[0]; } }
    assert Apart(b, c) by { forall x | InBox(x, b) ensures !InBox(x, c) { assert x[0] < b.start[0] + b.count[0]; } }
    assert Last(a) == [1, 0, 0] && Last(b) == [1, 3, 0] && Last(c) == [3, 0, 0];
    LessAt(a.start, b.start, 1);
    LessAt(a.start, c.start, 0);
    LessAt(b.start, c.start, 0);
    LessAt(Last(a), Last(b), 1);
    LessAt(Last(a), Last(c), 0);
    LessAt(Last(b), Last(c), 0);
    LessAt(Last(b), c.start, 0);
    LessAt(b.start, Last(a), 0);
  }

  /** Blocks that start at different places along two dimensions, or touch along none, are not adjacent. */
  lemma NotAdjacent(a: Block, b: Block, d: nat, k: nat, l: nat)
    requires WF(3, a) && WF(3, b) && d < 3 && k < 3 && l < 3 && a.start[k] != b.start[k]
    requires if k != l then a.start[l] != b.start[l] else a.start[k] + a.count[k] != b.start[k]
    ensures !Adjacent(a, b, d)
  {
  }

  lemma NothingJoins()
    ensures NoNeighbours(3, 3, Lossy())
  {
    var g := Lossy();
    forall i: nat, k: nat | k < 3 ensures !Continued(3, g, i, k)
    {
      if i == 0 {
        NotAdjacent(g[0], g[1], k, 1, 1);
      } else if i == 1 {
        NotAdjacent(g[1], g[2], k, 0, 1);
      }
    }
  }

  lemma LossyPrepared()
    ensures Prepared(3, Lossy()) == Lossy()
  {
    hide Less, Disjoint;
    var g := Lossy();
    SpanOrder();
    NothingJoins();
    MergeIdle(3, 3, g);
    DisjointDistinct(3, g);
    ArrangeSorts(3, g);
    SortedCopyFacts(3, g, Arrange(3, g), StdOrder(Starts(3, g), 3));
    SortUnique(3, g, Arrange(3, g));
  }

  lemma TailRows(y: nat, w: nat)
    requires w == 1 || w == 2
    ensures var r := RowsOf(Block([y, 0], [w, 1]));
            |r| == w && forall k :: 0 <= k < w ==> r[k] == Block([y + k, 0], [1, 1])
  {
    var t, e := Block([y, 0], [w, 1]), Block([0], [1]);
    assert Tail(t) == e && RowsOf(e) == [e];
    assert RowsOf(t) == RowSlabs(y, w, [e]);
    RowSlabsLen(y, w, [e]);
    forall k | 0 <= k < w ensures RowsOf(t)[k] == Block([y + k, 0], [1, 1])
    {
      RowSlabsAt(y, w, [e], k, 0);
      assert [y + k] + e.start == [y + k, 0] && [1] + e.count == [1, 1];
    }
  }

  lemma DotRow(y: nat, r: seq<Block>, i: nat, j: nat)
    requires i < 2 && j < |r| && r[j] == Block([y + j, 0], [1, 1])
    ensures 0 <= i * |r| + j < |RowSlabs(0, 2, r)| && RowSlabs(0, 2, r)[i * |r| + j] == Dot(i, y + j)
  {
    hide RowSlabs;
    RowSlabsAt(0, 2, r, i, j);
    assert [i] + r[j].start == [i, y + j, 0] && [1] + r[j].count == [1, 1, 1];
  }

  lemma NarrowRows(y: nat)
    ensures RowsOf(Block([0, y, 0], [2, 1, 1])) == [Dot(0, y), Dot(1, y)]
  {
    hide RowSlabs;
    var b := Block([0, y, 0], [2, 1, 1]);
    TailRows(y, 1);
    assert Tail(b) == Block([y, 0], [1, 1]);
    var r := RowsOf(Tail(b));
    RowSlabsLen(0, 2, r);
    DotRow(y, r, 0, 0);
    DotRow(y, r, 1, 0);
    assert RowsOf(b) == RowSlabs(0, 2, r);
  }

  lemma WideRows(y: nat)
    ensures RowsOf(Block([0, y, 0], [2, 2, 1])) == [Dot(0, y), Dot(0, y + 1), Dot(1, y), Dot(1, y + 1)]
  {
    hide RowSlabs;
    var b := Block([0, y, 0], [2, 2, 1]);
    TailRows(y, 2);
    assert Tail(b) == Block([y, 0], [2, 1]);
    var r := RowsOf(Tail(b));
    RowSlabsLen(0, 2, r);
    DotRow(y, r, 0, 0);
    DotRow(y, r, 0, 1);
    DotRow(y, r, 1, 0);
    DotRow(y, r, 1, 1);
    assert RowsOf(b) == RowSlabs(0, 2, r);
  }

  lemma FirstGroup()
    ensures RunLen(3, Lossy()) == 2 && Lossy()[..2] == [Lossy()[0], Lossy()[1]] && Lossy()[2..] == Single()
    ensures AllWF(3, Lossy()[..2]) && AllRows(3, Lossy()[..2]) == Written()
  {
    hide Less, RowsOf;
    var g := Lossy();
    SpanOrder();
    assert g[1..][1..] == Single() && g[1..][0] == g[1] && g[1..][1] == g[2];
    assert RunLen(3, g[1..]) == 1;
    var run := g[..2];
    NarrowRows(0);
    WideRows(2);
    assert run[1..] == [g[1]] && run[1..][1..] == [];
    assert AllRows(3, run[1..]) == RowsOf(g[1]) + [];
    assert AllRows(3, run) == RowsOf(g[0]) + (RowsOf(g[1]) + []);
  }

  /** Where each sorted row was written. */
  function Places(): seq<int> { [0, 2, 3, 1, 4, 5] }

  lemma SortedIsSorted()
    ensures forall t, u :: 0 <= t < u < 6 ==> Less(Sorted()[t].start, Sorted()[u].start)
  {
    hide Less;
    var s := Sorted();
    LessAt(s[0].start, s[1].start, 1);
    LessAt(s[1].start, s[2].start, 1);
    LessAt(s[2].start, s[3].start, 0);
    LessAt(s[3].start, s[4].start, 1);
    LessAt(s[4].start, s[5].start, 1);
    forall t, u | 0 <= t < u < 6 ensures Less(s[t].start, s[u].start) { Chain(3, s, t, u); }
  }

  lemma {:induction false} Chain(n: nat, s: seq<Block>, t: nat, u: nat)
    requires AllWF(n, s) && t < u < |s| && forall i :: 0 <= i < |s| - 1 ==> Less(s[i].start, s[i + 1].start)
    ensures Less(s[t].start, s[u].start)
    decreases u
  {
    hide Less;
    assert Less(s[u - 1].start, s[u - 1 + 1].start);
    if t < u - 1 {
      Chain(n, s, t, u - 1);
      LessTrans(s[t].start, s[u - 1].start, s[u].start);
    }
  }

  lemma PlacesPermute()
    ensures IsPerm(Places(), 6) && SortedCopy(3, Written(), Sorted(), Places())
  {
    hide Less;
    var p := Places();
    assert p[0] == 0 && p[3] == 1 && p[1] == 2 && p[2] == 3 && p[4] == 4 && p[5] == 5;
    forall v | 0 <= v < 6 ensures v in p {}
    SortedIsSorted();
  }

  /** Blocks with different starts can be sorted in one way only. */
  lemma OnlySort(n: nat, w: seq<Block>, s: seq<Block>, q: seq<int>)
    requires AllWF(n, w) && AllWF(n, s) && DistinctStarts(n, w) && SortedCopy(n, w, s, q)
    ensures Arrange(n, w) == s && StdOrder(Starts(n, w), |w|) == q
  {
    hide Less, IsPerm, StdOrder, OrderedBy, Starts, Arrange, WF;
    var p := StdOrder(Starts(n, w), |w|);
    ArrangeSorts(n, w);
    SortedCopyFacts(n, w, s, q);
    SortedCopyFacts(n, w, Arrange(n, w), p);
    SortUnique(n, s, Arrange(n, w));
    OrderFacts(n, w);
    ArrangedAt(n, w);
    PermRange(q, |w|);
    forall t | 0 <= t < |w| ensures p[t] == q[t] { SamePlace(n, w, p[t], q[t], s[t]); }
  }

  lemma PermRange(q: seq<int>, n: nat)
    requires IsPerm(q, n)
    ensures |q| == n && forall t :: 0 <= t < n ==> 0 <= q[t] < n
  {
  }

  lemma SamePlace(n: nat, w: seq<Block>, i: int, j: int, x: Block)
    requires AllWF(n, w) && DistinctStarts(n, w) && 0 <= i < |w| && 0 <= j < |w| && w[i] == x == w[j]
    ensures i == j
  {
  }

  /** The sort leaves the rows in this order, from these places. */
  lemma OrderIsPlaces()
    ensures Arrange(3, Written()) == Sorted() && StdOrder(Starts(3, Written()), 6) == Places()
  {
    hide Less, IsPerm, StdOrder, OrderedBy, Starts, Arrange, SortedCopy, DistinctStarts;
    PlacesPermute();
    WrittenDistinct();
    OnlySort(3, Written(), Sorted(), Places());
  }

  lemma WrittenDistinct()
    ensures DistinctStarts(3, Written())
  {
  }

  // ----- merging the sorted rows -----

  lemma SortedPassTwo(ks: seq<int>)
    requires |ks| == 6
    ensures MergePass(3, 2, Sorted()) == Sorted() && KeptRefs(3, 2, Sorted(), ks) == ks
  {
    var s := Sorted();
    forall i: nat ensures !Continued(3, s, i, 2) {}
    PassIdle(3, 2, s);
    KeptAll(3, 2, s, ks);
  }

  /** The pass along dimension 1 over the last three rows, and over all: it joins two pairs. */
  lemma LowerRows(d: int, e: int, f: int)
    ensures MergePass(3, 1, [Dot(1, 0), Dot(1, 2), Dot(1, 3)]) == [Dot(1, 0), Pair(1, 2)]
    ensures KeptRefs(3, 1, [Dot(1, 0), Dot(1, 2), Dot(1, 3)], [d, e, f]) == [d, e]
  {
    hide MergePass, KeptRefs, Adjacent, Union, Dot, Pair;
    DotPairs();
    var (u, v, w) := (Dot(1, 0), Dot(1, 2), Dot(1, 3));
    KeepsOne(3, 1, v, w, [], e, f, [], Pair(1, 2));
    LastOne(3, 1, Pair(1, 2), e);
    KeepsTwo(3, 1, u, v, [w], d, e, [f]);
    assert [v, w] + [] == [v, w] && [e, f] + [] == [e, f] && [Pair(1, 2)] + [] == [Pair(1, 2)] && [e] + [] == [e];
    assert [u, v] + [w] == [u, v, w] && [v] + [w] == [v, w] && [d, e] + [f] == [d, e, f] && [e] + [f] == [e, f];
  }

  lemma SortedPassOne(a: int, b: int, c: int, d: int, e: int, f: int)
    ensures MergePass(3, 1, Sorted()) == Kept() && KeptRefs(3, 1, Sorted(), [a, b, c, d, e, f]) == [a, b, d, e]
  {
    hide MergePass, KeptRefs, Adjacent, Union, Dot, Pair;
    var (x, y, z, u, v, w) := (Dot(0, 0), Dot(0, 2), Dot(0, 3), Dot(1, 0), Dot(1, 2), Dot(1, 3));
    DotPairs();
    LowerRows(d, e, f);
    var t, ks := [u, v, w], [d, e, f];
    KeepsTwo(3, 1, Pair(0, 2), u, [v, w], b, d, [e, f]);
    KeepsOne(3, 1, y, z, t, b, c, ks, Pair(0, 2));
    KeepsTwo(3, 1, x, y, [z] + t, a, b, [c] + ks);
    assert [u] + [v, w] == t && [d] + [e, f] == ks && [Pair(0, 2), u] + [v, w] == [Pair(0, 2)] + t && [b, d] + [e, f] == [b] + ks;
    assert [y] + ([z] + t) == [y, z] + t && [b] + ([c] + ks) == [b, c] + ks;
    assert [x, y] + ([z] + t) == Sorted() && [a, b] + ([c] + ks) == [a, b, c, d, e, f];
  }

  lemma DotPairs()
    ensures forall x, y :: WF(3, Dot(x, y)) && WF(3, Pair(x, y))
    ensures Adjacent(Dot(0, 2), Dot(0, 3), 1) && Union(Dot(0, 2), Dot(0, 3), 1) == Pair(0, 2)
    ensures Adjacent(Dot(1, 2), Dot(1, 3), 1) && Union(Dot(1, 2), Dot(1, 3), 1) == Pair(1, 2)
    ensures !Adjacent(Dot(0, 0), Dot(0, 2), 1) && !Adjacent(Pair(0, 2), Dot(1, 0), 1) && !Adjacent(Dot(1, 0), Dot(1, 2), 1)
  {
    assert Dot(0, 2).start[1] + 1 == Dot(0, 3).start[1];
    assert Pair(0, 2).start[0] != Dot(1, 0).start[0];
  }

  lemma LastOne(n: nat, d: nat, b: Block, k: int)
    requires d < n && WF(n, b)
    ensures MergePass(n, d, [b]) == [b] && KeptRefs(n, d, [b], [k]) == [k]
  {
  }

  lemma KeepsTwo(n: nat, d: nat, a: Block, b: Block, rest: seq<Block>, j: int, k: int, ks: seq<int>)
    requires d < n && WF(n, a) && WF(n, b) && AllWF(n, rest) && |ks| == |rest| && !Adjacent(a, b, d)
    ensures AllWF(n, [a, b] + rest) && AllWF(n, [b] + rest)
    ensures MergePass(n, d, [a, b] + rest) == [a] + MergePass(n, d, [b] + rest)
    ensures KeptRefs(n, d, [a, b] + rest, [j, k] + ks) == [j] + KeptRefs(n, d, [b] + rest, [k] + ks)
  {
    hide Adjacent, Union;
    var s, l := [a, b] + rest, [j, k] + ks;
    assert s[0] == a && s[1] == b && s[1..] == [b] + rest && l[0] == j && l[1..] == [k] + ks;
  }

  lemma KeepsOne(n: nat, d: nat, a: Block, b: Block, rest: seq<Block>, j: int, k: int, ks: seq<int>, u: Block)
    requires d < n && WF(n, a) && WF(n, b) && AllWF(n, rest) && |ks| == |rest| && Adjacent(a, b, d) && u == Union(a, b, d)
    ensures AllWF(n, [a, b] + rest) && WF(n, u) && AllWF(n, [u] + rest)
    ensures MergePass(n, d, [a, b] + rest) == MergePass(n, d, [u] + rest)
    ensures KeptRefs(n, d, [a, b] + rest, [j, k] + ks) == KeptRefs(n, d, [u] + rest, [j] + ks)
  {
    hide Adjacent, Union;
    UnionWF(n, a, b, d);
    var s, l := [a, b] + rest, [j, k] + ks;
    assert s[0] == a && s[1] == b && s[2..] == rest && l[0] == j && l[2..] == ks;
  }

  lemma KeptPassZero(ks: seq<int>)
    requires |ks| == 4
    ensures MergePass(3, 0, Kept()) == Kept() && KeptRefs(3, 0, Kept(), ks) == ks
  {
    var s := Kept();
    forall i: nat ensures !Continued(3, s, i, 0)
    {
      if i + 1 < 4 { assert s[i].start[1] != s[i + 1].start[1]; }
    }
    PassIdle(3, 0, s);
    KeptAll(3, 0, s, ks);
  }

  /** The slots of the first group after its rows were merged: slot 4 still points to the row that slot 3 keeps. */
  lemma MergedPointers()
    ensures MergePasses(3, 3, Sorted()) == Kept() && MergedRefs(3, 3, Sorted(), Places()) == [0, 2, 1, 4, 4, 5]
  {
    hide MergePass, KeptRefs;
    var s, ks := Sorted(), Places();
    var l := [0, 2, 1, 4, 4, 5];
    SortedPassTwo(ks);
    assert ks[..6] == ks && ks + ks[6..] == ks;
    SortedPassOne(0, 2, 3, 1, 4, 5);
    assert [0, 2, 1, 4] + ks[4..] == l;
    KeptPassZero(l[..4]);
    assert l[..4] + l[4..] == l;
    assert MergePasses(3, 3, s) == MergePasses(3, 2, s) == MergePasses(3, 1, Kept()) == MergePasses(3, 0, Kept()) == Kept();
    assert MergedRefs(3, 3, s, ks) == MergedRefs(3, 2, s, ks);
    assert MergedRefs(3, 2, s, ks) == MergedRefs(3, 1, Kept(), l);
    assert MergedRefs(3, 1, Kept(), l) == MergedRefs(3, 0, Kept(), l) == l;
  }

  function Start(): seq<int> { [0, 1, 2, 3, 4, 5, 6] }

  lemma FirstGroupLeaves()
    ensures AllWF(3, Lossy()[..2]) && Pieces(3, Lossy()[..2]) == Written() && EmitRun(3, Lossy()[..2]) == Kept()
    ensures RunRefs(3, Start(), 0, Lossy()[..2]) == [0, 2, 1, 4, 4, 5, 6]
  {
    hide StdOrder, Starts, Arrange, MergePasses, MergedRefs, AllRows;
    FirstGroup();
    OrderIsPlaces();
    MergedPointers();
    var moved := Reordered(Start(), 0, Places());
    assert moved == Places() + [6];
    assert moved[..0] == [] && moved[0..6] == Places() && moved[6..] == [6];
    assert [] + [0, 2, 1, 4, 4, 5] + [6] == [0, 2, 1, 4, 4, 5, 6];
  }

  lemma LastGroup()
    ensures RunLen(3, Single()) == 1 && Single()[..1] == Single() && Single()[1..] == []
    ensures Pieces(3, Single()) == Single() && Need(3, Single()) == 1
  {
  }

  lemma Room()
    ensures AllWF(3, Lossy()[..2]) && Need(3, Lossy()) == 7 && Fresh(3, 7).refs == Start()
  {
    hide Pieces, RunLen, Need, EmitRun, RunRefs, AllRows;
    FirstGroup();
    FirstGroupLeaves();
    LastGroup();
    FirstRun(3, Lossy(), 2);
  }

  /** The second group is written through slot 4, that is, over the block that slot 3 keeps. */
  lemma LossyIsNotClean()
    ensures !Clean(3, Lossy())
  {
    hide Pieces, RunLen, EmitRun, RunRefs, Prepared, Need;
    LossyPrepared();
    FirstGroup();
    FirstGroupLeaves();
    LastGroup();
    Room();
    var l := [0, 2, 1, 4, 4, 5, 6];
    assert l[..5][3] == l[..5][4];
    assert !CleanFrom(3, Single(), l, 4);
  }

  /** What the first group leaves: its blocks in the first four slots, the others pointing to rows in use. */
  ghost predicate HalfWay(r: Merged)
  {
    SlotsOk(3, r.s) && r.s.refs == [0, 2, 1, 4, 4, 5, 6] && r.len == 4 && Holding(false, 3, r.s, 4, Kept())
  }

  lemma FirstStep() returns (r: Merged)
    ensures HalfWay(r) && AllWF(3, Lossy()) && 0 + Need(3, Lossy()) <= 7 && Need(3, Single()) == 1
    ensures FillFrom(3, Lossy(), Fresh(3, 7), 0) == FillFrom(3, Single(), r.s, 4)
  {
    hide Pieces, RunLen, EmitRun, RunRefs, Need, RunStep, Holding, Store, Fresh, AllRows;
    FirstGroup();
    FirstGroupLeaves();
    LastGroup();
    Room();
    var s := Fresh(3, 7);
    FreshHolds(3, 7);
    FirstSix(s.refs);
    assert [] + Kept() == Kept();
    RunClean(3, s, 0, Lossy()[..2], []);
    r := RunStep(3, s, 0, Lossy()[..2]);
  }

  lemma FirstSix(refs: seq<int>)
    requires refs == Start()
    ensures Distinct(refs[..0 + 6]) && Distinct(refs[..0 + |Written()|])
  {
  }

  /** Where the second group is written, element (1, 2, 0) gets lost. */
  lemma SecondStep(r: Merged) returns (e: Merged)
    requires HalfWay(r) && Need(3, Single()) == 1
    ensures SlotsOk(3, r.s) && FillFrom(3, Single(), r.s, 4) == e && SlotsOk(3, e.s) && e.len <= |e.s.refs| && Avoids(3, e.s, e.len, [1, 2, 0])
  {
    hide Pieces, RunLen, Need, RunStep, Holding, Store, Avoids, FillFrom, StdOrder;
    LastGroup();
    PiecesExist(3, Single());
    KeptApart();
    assert (Kept() + Single())[3] == Pair(1, 2) && r.s.refs[3] == r.s.refs[4];
    StoreLoses(3, r.s, 4, Single(), Kept(), 3, 4);
    RestAvoids(3, r.s, 4, Single(), [1, 2, 0]);
    e := RunStep(3, r.s, 4, Single());
    SingleFill(r.s);
  }

  lemma SingleFill(s: Slots)
    requires SlotsOk(3, s) && |s.refs| == 7 && Need(3, Single()) == 1 && |Pieces(3, Single())| == 1
    ensures FillFrom(3, Single(), s, 4) == RunStep(3, s, 4, Single())
  {
    hide Pieces, RunStep;
    LastGroup();
    var r := RunStep(3, s, 4, Single());
    assert r.len == 5 && FillFrom(3, [], r.s, r.len) == r;
  }

  /** HDF5 can deliver this list, and every guarantee of its order holds; still an element of the selection is
      not in the program's block list. */
  lemma LossyLosesElement()
    ensures Disjoint(3, Lossy()) && KeysIncrease(3, false, Lossy()) && KeysIncrease(3, true, Lossy())
    ensures Covers(3, Lossy(), [1, 2, 0]) && Shaped(Result(3, Lossy())) && [1, 2, 0] !in TravAll(Result(3, Lossy()))
  {
    hide Prepared, Need, Avoids, KeysIncrease, Disjoint, FillFrom, Trav, Shown, Fresh;
    SpanOrder();
    LossyPrepared();
    Room();
    var r := FirstStep();
    var e := SecondStep(r);
    AvoidedIsGone(3, e.s, e.len, [1, 2, 0]);
    assert InBox([1, 2, 0], Lossy()[1]);
  }

  lemma KeptApart()
    ensures AllWF(3, Kept() + Single()) && Disjoint(3, Kept() + Single())
  {
    var s := Kept() + Single();
    forall i, j | 0 <= i < j < 5 ensures Apart(s[i], s[j])
    {
      assert s[i].start[0] != s[j].start[0] || s[i].start[1] != s[j].start[1];
      forall c | InBox(c, s[i]) ensures !InBox(c, s[j])
      {
        assert s[i].start[0] <= c[0] < s[i].start[0] + 1 && s[i].start[1] <= c[1] < s[i].start[1] + s[i].count[1];
      }
    }
  }
}
