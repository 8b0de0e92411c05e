/** The loss needs no more than two dimensions: merging rows of a span tree can make blocks interleave that did not. */
module SlotLossFlat {
  import opened Grid
  import opened Rows
  import opened BlockSort
  import opened BlockMerge
  import opened SlotMerge
  import opened CanonicalForm
  import opened SlotFill
  import opened SlotSafe
  import SlotLoss

  /** The element at (x, y). */
  function Dot(x: nat, y: nat): Block { Block([x, y], [1, 1]) }

  /** h rows of column y, from row x on. */
  function Bar(x: nat, y: nat, h: nat): Block { Block([x, y], [h, 1]) }

  /** Column 0 of row 0, columns 0 and 2 of rows 1 and 2, and column 0 of row 4. */
  function Flat(): (spans: seq<Block>)
    ensures AllWF(2, spans)
  {
    [Dot(0, 0), Bar(1, 0, 2), Bar(1, 2, 2), Dot(4, 0)]
  }

  /** The same after the first merge. */
  function Grouped(): (g: seq<Block>)
    ensures AllWF(2, g)
  {
    [Bar(0, 0, 3), Bar(1, 2, 2), Dot(4, 0)]
  }

  function Single(): (g: seq<Block>)
    ensures AllWF(2, g)
  {
    [Dot(4, 0)]
  }

  function Written(): (bs: seq<Block>)
    ensures AllWF(2, bs)
  {
    [Dot(0, 0), Dot(1, 0), Dot(2, 0), Dot(1, 2), Dot(2, 2)]
  }

  function Sorted(): (bs: seq<Block>)
    ensures AllWF(2, bs)
  {
    [Dot(0, 0), Dot(1, 0), Dot(1, 2), Dot(2, 0), Dot(2, 2)]
  }

  function Kept(): (bs: seq<Block>)
    ensures AllWF(2, bs)
  {
    [Bar(0, 0, 2), Dot(1, 2), Dot(2, 0), Dot(2, 2)]
  }

  function Places(): seq<int> { [0, 1, 3, 2, 4] }

  // ----- the list and its first merge -----

  lemma ApartAt(a: Block, b: Block, k: nat)
    requires WF(2, a) && WF(2, b) && k < 2 && a.start[k] + a.count[k] <= b.start[k]
    ensures Apart(a, b)
  {
    forall x | InBox(x, a) ensures !InBox(x, b) { assert x[k] < a.start[k] + a.count[k]; }
  }

  lemma FlatApart()
    ensures Disjoint(2, Flat()) && TreeOfTwo(Flat())
  {
    hide Apart;
    var s := Flat();
    ApartAt(s[0], s[1], 0);
    ApartAt(s[0], s[2], 0);
    ApartAt(s[0], s[3], 0);
    ApartAt(s[1], s[2], 1);
    ApartAt(s[1], s[3], 0);
    ApartAt(s[2], s[3], 0);
  }

  lemma FlatStarts()
    ensures KeysIncrease(2, false, Flat())
  {
    hide Less;
    var s := Flat();
    SlotLoss.LessAt(s[0].start, s[1].start, 0);
    SlotLoss.LessAt(s[1].start, s[2].start, 1);
    SlotLoss.LessAt(s[2].start, s[3].start, 0);
    forall i, j | 0 <= i < j < 4 ensures Less(Key(false, s[i]), Key(false, s[j])) { SlotLoss.Chain(2, s, i, j); }
  }

  lemma FlatEnds()
    ensures KeysIncrease(2, true, Flat())
  {
    hide Less;
    var s := Flat();
    var a, b, c, d := [0, 0], [2, 0], [2, 2], [4, 0];
    assert Last(s[0]) == a && Last(s[1]) == b && Last(s[2]) == c && Last(s[3]) == d;
    SlotLoss.LessAt(a, b, 0);
    SlotLoss.LessAt(a, c, 0);
    SlotLoss.LessAt(a, d, 0);
    SlotLoss.LessAt(b, c, 1);
    SlotLoss.LessAt(b, d, 0);
    SlotLoss.LessAt(c, d, 0);
  }

  /** It is in HDF5's order, and the blocks form a span tree. */
  lemma SpanOrder()
    ensures Disjoint(2, Flat()) && KeysIncrease(2, false, Flat()) && KeysIncrease(2, true, Flat()) && TreeOfTwo(Flat())
  {
    hide Disjoint, KeysIncrease, TreeOfTwo;
    FlatApart();
    FlatStarts();
    FlatEnds();
  }

  lemma GroupedOrder()
    ensures Disjoint(2, Grouped()) && Less(Last(Grouped()[1]), Grouped()[2].start) && !Less(Last(Grouped()[0]), Grouped()[1].start)
    ensures KeysIncrease(2, false, Grouped())
  {
    hide Less, Apart;
    var g := Grouped();
    ApartAt(g[0], g[1], 1);
    ApartAt(g[0], g[2], 0);
    ApartAt(g[1], g[2], 0);
    assert Last(g[0]) == [2, 0] && Last(g[1]) == [2, 2];
    SlotLoss.LessAt(g[1].start, Last(g[0]), 0);
    SlotLoss.LessAt(Last(g[1]), g[2].start, 0);
    SlotLoss.LessAt(g[0].start, g[1].start, 0);
    SlotLoss.LessAt(g[1].start, g[2].start, 0);
    LessTrans(g[0].start, g[1].start, g[2].start);
  }

  lemma Joined(x: nat, y: nat, k: nat)
    requires k > 0
    ensures Adjacent(Dot(x, y), Bar(x + 1, y, k), 0) && Union(Dot(x, y), Bar(x + 1, y, k), 0) == Bar(x, y, k + 1)
  {
    assert [1, 1][0 := k + 1] == [k + 1, 1];
  }

  lemma FirstMerge()
    ensures MergePasses(2, 2, Flat()) == Grouped()
  {
    hide Union;
    var s := Flat();
    forall i: nat ensures !Continued(2, s, i, 1) {}
    PassIdle(2, 1, s);
    Joined(0, 0, 2);
    SlotLoss.KeepsOne(2, 0, s[0], s[1], s[2..], 0, 0, [0, 0], Bar(0, 0, 3));
    assert s == [s[0], s[1]] + s[2..] && [Bar(0, 0, 3)] + s[2..] == Grouped();
    forall i: nat ensures !Continued(2, Grouped(), i, 0) {}
    PassIdle(2, 0, Grouped());
    assert MergePasses(2, 2, s) == MergePasses(2, 1, s) == MergePasses(2, 0, MergePass(2, 0, s));
  }

  lemma NothingJoins()
    ensures MergePasses(2, 2, Grouped()) == Grouped()
  {
    forall i: nat, k: nat | k < 2 ensures !Continued(2, Grouped(), i, k) {}
    MergeIdle(2, 2, Grouped());
  }

  lemma FlatPrepared()
    ensures Prepared(2, Flat()) == Grouped()
  {
    hide Less, Disjoint, MergePasses;
    var g := Grouped();
    FirstMerge();
    NothingJoins();
    GroupedOrder();
    DisjointDistinct(2, g);
    ArrangeSorts(2, g);
    SortedCopyFacts(2, g, Arrange(2, g), StdOrder(Starts(2, g), 3));
    SortUnique(2, g, Arrange(2, g));
  }

  // ----- the rows of the first group -----

  lemma BarRows(x: nat, y: nat, h: nat)
    requires h > 0
    ensures |RowsOf(Bar(x, y, h))| == h && forall i :: 0 <= i < h ==> RowsOf(Bar(x, y, h))[i] == Dot(x + i, y)
  {
    var b, e := Bar(x, y, h), Block([y], [1]);
    assert Tail(b) == e && RowsOf(e) == [e];
    assert RowsOf(b) == RowSlabs(x, h, [e]);
    RowSlabsLen(x, h, [e]);
    forall i | 0 <= i < h ensures RowsOf(b)[i] == Dot(x + i, y)
    {
      RowSlabsAt(x, h, [e], i, 0);
      assert [x + i] + e.start == [x + i, y] && [1] + e.count == [1, 1];
    }
  }

  lemma FirstGroup()
    ensures RunLen(2, Grouped()) == 2 && Grouped()[..2] == [Grouped()[0], Grouped()[1]] && Grouped()[2..] == Single()
    ensures AllWF(2, Grouped()[..2]) && AllRows(2, Grouped()[..2]) == Written()
  {
    hide Less, RowsOf;
    var g := Grouped();
    GroupedOrder();
    assert g[1..][1..] == Single() && g[1..][0] == g[1] && g[1..][1] == g[2];
    assert RunLen(2, g[1..]) == 1;
    var run := g[..2];
    BarRows(0, 0, 3);
    BarRows(1, 2, 2);
    assert RowsOf(g[0]) == [Dot(0, 0), Dot(1, 0), Dot(2, 0)] && RowsOf(g[1]) == [Dot(1, 2), Dot(2, 2)];
    assert run[1..] == [g[1]] && run[1..][1..] == [];
    assert AllRows(2, run[1..]) == RowsOf(g[1]) + [];
    assert AllRows(2, run) == RowsOf(g[0]) + (RowsOf(g[1]) + []);
  }

  lemma SortedIsSorted()
    ensures forall t, u :: 0 <= t < u < 5 ==> Less(Sorted()[t].start, Sorted()[u].start)
  {
    hide Less;
    var s := Sorted();
    SlotLoss.LessAt(s[0].start, s[1].start, 0);
    SlotLoss.LessAt(s[1].start, s[2].start, 1);
    SlotLoss.LessAt(s[2].start, s[3].start, 0);
    SlotLoss.LessAt(s[3].start, s[4].start, 1);
    forall t, u | 0 <= t < u < 5 ensures Less(s[t].start, s[u].start) { SlotLoss.Chain(2, s, t, u); }
  }

  lemma PlacesPermute()
    ensures IsPerm(Places(), 5) && SortedCopy(2, Written(), Sorted(), Places())
  {
    hide Less;
    var p := Places();
    assert p[0] == 0 && p[1] == 1 && p[3] == 2 && p[2] == 3 && p[4] == 4;
    forall v | 0 <= v < 5 ensures v in p {}
    SortedIsSorted();
  }

  lemma WrittenDistinct()
    ensures DistinctStarts(2, Written())
  {
  }

  lemma OrderIsPlaces()
    ensures Arrange(2, Written()) == Sorted() && StdOrder(Starts(2, Written()), 5) == Places()
  {
    hide Less, IsPerm, StdOrder, OrderedBy, Starts, Arrange, SortedCopy, DistinctStarts;
    PlacesPermute();
    WrittenDistinct();
    SlotLoss.OnlySort(2, Written(), Sorted(), Places());
  }

  // ----- merging the sorted rows -----

  lemma SortedPassOne(ks: seq<int>)
    requires |ks| == 5
    ensures MergePass(2, 1, Sorted()) == Sorted() && KeptRefs(2, 1, Sorted(), ks) == ks
  {
    var s := Sorted();
    forall i: nat ensures !Continued(2, s, i, 1) {}
    PassIdle(2, 1, s);
    KeptAll(2, 1, s, ks);
  }

  lemma KeptApart()
    ensures forall i: nat :: !Continued(2, Kept(), i, 0)
  {
    forall i: nat ensures !Continued(2, Kept(), i, 0)
    {
      if i + 1 < 4 { assert Kept()[i].start[1] != Kept()[i + 1].start[1]; }
    }
  }

  lemma SortedPassZero(a: int, b: int, c: int, d: int, e: int)
    ensures MergePass(2, 0, Sorted()) == Kept() && KeptRefs(2, 0, Sorted(), [a, b, c, d, e]) == [a, c, d, e]
  {
    hide MergePass, KeptRefs, Union;
    var s, t, l := Sorted(), Kept(), [a, c, d, e];
    Joined(0, 0, 1);
    SlotLoss.KeepsOne(2, 0, s[0], s[1], s[2..], a, b, [c, d, e], Bar(0, 0, 2));
    assert s == [s[0], s[1]] + s[2..] && [Bar(0, 0, 2)] + s[2..] == t;
    assert [a, b] + [c, d, e] == [a, b, c, d, e] && [a] + [c, d, e] == l;
    KeptApart();
    PassIdle(2, 0, t);
    KeptAll(2, 0, t, l);
  }

  /** Slot 4 still points to the row that slot 3 keeps. */
  lemma MergedPointers()
    ensures MergePasses(2, 2, Sorted()) == Kept() && MergedRefs(2, 2, Sorted(), Places()) == [0, 3, 2, 4, 4]
  {
    hide MergePass, KeptRefs;
    var s, ks := Sorted(), Places();
    SortedPassOne(ks);
    SortedPassZero(0, 1, 3, 2, 4);
    assert ks[..5] == ks && ks + ks[5..] == ks && [0, 3, 2, 4] + ks[4..] == [0, 3, 2, 4, 4];
    assert MergePasses(2, 2, s) == MergePasses(2, 1, s) == MergePasses(2, 0, Kept()) == Kept();
    assert MergedRefs(2, 2, s, ks) == MergedRefs(2, 1, s, ks);
    assert MergedRefs(2, 1, s, ks) == MergedRefs(2, 0, Kept(), [0, 3, 2, 4, 4]) == [0, 3, 2, 4, 4];
  }

  function Start(): seq<int> { [0, 1, 2, 3, 4, 5] }

  lemma FirstGroupLeaves()
    ensures AllWF(2, Grouped()[..2]) && Pieces(2, Grouped()[..2]) == Written() && EmitRun(2, Grouped()[..2]) == Kept()
    ensures RunRefs(2, Start(), 0, Grouped()[..2]) == [0, 3, 2, 4, 4, 5]
  {
    hide StdOrder, Starts, Arrange, MergePasses, MergedRefs, AllRows;
    FirstGroup();
    OrderIsPlaces();
    MergedPointers();
    var moved := Reordered(Start(), 0, Places());
    assert moved == Places() + [5];
    assert moved[..0] == [] && moved[0..5] == Places() && moved[5..] == [5];
    assert [] + [0, 3, 2, 4, 4] + [5] == [0, 3, 2, 4, 4, 5];
  }

  lemma LastGroup()
    ensures RunLen(2, Single()) == 1 && Single()[..1] == Single() && Single()[1..] == []
    ensures Pieces(2, Single()) == Single() && Need(2, Single()) == 1
  {
  }

  lemma Room()
    ensures AllWF(2, Grouped()[..2]) && Need(2, Grouped()) == 6 && Fresh(2, 6).refs == Start()
  {
    hide Pieces, RunLen, Need, EmitRun, RunRefs, AllRows;
    FirstGroup();
    FirstGroupLeaves();
    LastGroup();
    FirstRun(2, Grouped(), 2);
  }

  // ----- the loss -----

  lemma FlatIsNotClean()
    ensures !Clean(2, Flat())
  {
    hide Pieces, RunLen, EmitRun, RunRefs, Prepared, Need;
    FlatPrepared();
    FirstGroup();
    FirstGroupLeaves();
    LastGroup();
    Room();
    var l := [0, 3, 2, 4, 4, 5];
    assert l[..5][3] == l[..5][4];
    assert !CleanFrom(2, Single(), l, 4);
  }

  /** A list in HDF5's order whose blocks form a span tree of rank two, and of which an element is lost. */
  lemma FlatLosesElement() returns (c: Coord)
    ensures Disjoint(2, Flat()) && KeysIncrease(2, false, Flat()) && KeysIncrease(2, true, Flat()) && TreeOfTwo(Flat())
    ensures Covers(2, Flat(), c) && Shaped(Result(2, Flat())) && c !in TravAll(Result(2, Flat()))
  {
    hide Result, Clean, Disjoint, KeysIncrease, TreeOfTwo, TravAll;
    SpanOrder();
    FlatIsNotClean();
    ResultExactly(2, Flat());
    c :| Covers(2, Flat(), c) && c !in TravAll(Result(2, Flat()));
  }
}
