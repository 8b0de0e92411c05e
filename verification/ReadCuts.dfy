/** When the cuts between groups are real: for reads whose intersections end in one order in all dimensions,
    and for canonical requests; and a read for which they are not. */
module ReadCuts {
  import opened Grid
  import opened Rows
  import opened IndexSearch
  import opened SortOffsets
  import opened Trim
  import opened ReadPlan
  import opened ReadGroups
  import opened ReadTypes
  import opened ReadLegal

  /** Intersections of the same entry block share its shape; different entry blocks are apart in the file. */
  ghost predicate Sources(bs: seq<Blk>)
    requires AllOk(bs)
  {
    forall i, j :: 0 <= i < |bs| && 0 <= j < |bs| ==> SourcesOf(bs[i], bs[j])
  }

  ghost predicate SourcesOf(a: Blk, b: Blk)
    requires Ok(a) && Ok(b)
  {
    (SameSource(a, b) <==> Base(a) == Base(b)) &&
    (SameSource(a, b) ==> a.isect.dsize == b.isect.dsize && a.esize == b.esize) &&
    (Base(a) < Base(b) ==> Base(a) + Prod(a.isect.dsize) * a.esize <= Base(b))
  }

  lemma Corners(b: Blk)
    requires Ok(b)
    ensures Add(b.isect.dstart, LastU(b)) == LastOf(b) && Add(b.isect.dstart, ZeroU(b)) == b.isect.dstart
    ensures InBounds(b.isect.dsize, LastOf(b)) && InBounds(b.isect.dsize, b.isect.dstart)
  {
    InEntry(b, LastU(b));
    InEntry(b, ZeroU(b));
    assert Add(b.isect.dstart, LastU(b)) == LastOf(b);
    assert Add(b.isect.dstart, ZeroU(b)) == b.isect.dstart;
  }

  /** In one entry block, ending before another starts in the file is ending before it in the block. */
  lemma FileCut(a: Blk, b: Blk)
    requires Ok(a) && Ok(b) && SourcesOf(a, b) && SameSource(a, b)
    ensures Rk(a) == Rk(b) && (FileEnd(a) <= FileStart(b) <==> Less(LastOf(a), b.isect.dstart))
  {
    hide Less, Linear, LastOf, LastU, ZeroU;
    Corners(a);
    Corners(b);
    InBoundsRadix(a.isect.dsize, LastOf(a));
    InBoundsRadix(a.isect.dsize, b.isect.dstart);
    LinearOrder(a.isect.dsize, LastOf(a), b.isect.dstart);
    var x, y := Linear(a.isect.dsize, LastOf(a)), Linear(a.isect.dsize, b.isect.dstart);
    if x < y { StepMul(x, y, a.esize); } else { MulMono(y, x, a.esize); }
  }

  lemma InBoundsRadix(dims: Coord, c: Coord)
    requires InBounds(dims, c)
    ensures InRadix(dims, c)
  {
  }

  lemma OtherSource(a: Blk, b: Blk)
    requires Ok(a) && Ok(b) && SourcesOf(a, b) && Base(a) < Base(b)
    ensures FileEnd(a) <= FileStart(b)
  {
    hide Linear, LastU, ZeroU, Prod;
    Corners(a);
    LinearBound(a.isect.dsize, LastOf(a));
    StepMul(Linear(a.isect.dsize, LastOf(a)), Prod(a.isect.dsize), a.esize);
  }

  // ----- one group -----

  /** Of any two intersections of an entry block, one ends no earlier than the other in every dimension. */
  ghost predicate EndsChain(bs: seq<Blk>)
    requires AllOk(bs)
  {
    forall i, j :: 0 <= i < |bs| && 0 <= j < |bs| && SameSource(bs[i], bs[j]) ==> Chained(bs[i], bs[j])
  }

  ghost predicate Chained(a: Blk, b: Blk)
    requires Ok(a) && Ok(b)
  {
    Rk(a) == Rk(b) && (Below(a, b) || Below(b, a))
  }

  ghost predicate Below(a: Blk, b: Blk)
    requires Ok(a) && Ok(b)
  {
    Rk(a) == Rk(b) && forall k :: 0 <= k < Rk(a) ==> LastOf(a)[k] <= LastOf(b)[k]
  }

  /** On a chain the comparison of last elements is the right one. */
  lemma ChainCompares(a: Blk, b: Blk)
    requires Ok(a) && Ok(b) && Chained(a, b)
    ensures EndsAfter(a, b) ==> LessEq(LastOf(b), LastOf(a))
    ensures !EndsAfter(a, b) ==> LessEq(LastOf(a), LastOf(b))
  {
    if EndsAfter(a, b) {
      var k :| 0 <= k < Rk(a) && LastOf(a)[k] > LastOf(b)[k];
      assert !Below(a, b);
      PointwiseLessEq(LastOf(b), LastOf(a));
    } else {
      PointwiseLessEq(LastOf(a), LastOf(b));
    }
  }

  ghost predicate NoneLater(bs: seq<Blk>, s: nat, j: nat, i: nat)
    requires AllOk(bs)
  {
    s <= j <= i < |bs| && forall t :: s <= t <= i ==>
      (SameSource(bs[j], bs[t]) && Rk(bs[t]) == Rk(bs[j]) && LessEq(LastOf(bs[t]), LastOf(bs[j])))
  }

  lemma NoneLaterStep(bs: seq<Blk>, s: nat, j: nat, i: nat)
    requires AllOk(bs) && NoneLater(bs, s, j, i) && EndsChain(bs) && i + 1 < |bs| && Joins(bs[j], bs[i + 1])
    ensures NoneLater(bs, s, if EndsAfter(bs[i + 1], bs[j]) then i + 1 else j, i + 1)
  {
    hide Ok, LastOf, Less;
    assert Chained(bs[i + 1], bs[j]);
    ChainCompares(bs[i + 1], bs[j]);
    if EndsAfter(bs[i + 1], bs[j]) {
      forall t | s <= t <= i + 1
        ensures SameSource(bs[i + 1], bs[t]) && Rk(bs[t]) == Rk(bs[i + 1]) && LessEq(LastOf(bs[t]), LastOf(bs[i + 1]))
      {
        if t <= i { LessEqTrans(LastOf(bs[t]), LastOf(bs[j]), LastOf(bs[i + 1])); }
      }
    }
  }

  lemma LessEqTrans(a: Coord, b: Coord, c: Coord)
    requires |a| == |b| == |c| && LessEq(a, b) && LessEq(b, c)
    ensures LessEq(a, c)
  {
    if Less(a, b) && Less(b, c) { LessTrans(a, b, c); }
  }

  /** The block that the loop holds to end last does, and the group ends because the next does not join it. */
  lemma {:induction false} Runner(bs: seq<Blk>, s: nat, j: nat, i: nat) returns (r: nat)
    requires AllOk(bs) && EndsChain(bs) && NoneLater(bs, s, j, i)
    ensures r < GroupEnd(bs, j, i) && NoneLater(bs, s, r, GroupEnd(bs, j, i) - 1)
    ensures GroupEnd(bs, j, i) < |bs| ==> !Joins(bs[r], bs[GroupEnd(bs, j, i)])
    decreases |bs| - i
  {
    hide Ok, NoneLater, EndsChain, Interleaves, EndsAfter, SameSource;
    NoneLaterBounds(bs, s, j, i);
    if i + 1 < |bs| && Joins(bs[j], bs[i + 1]) {
      NoneLaterStep(bs, s, j, i);
      r := Runner(bs, s, if EndsAfter(bs[i + 1], bs[j]) then i + 1 else j, i + 1);
    } else {
      r := j;
    }
  }

  lemma NoneLaterBounds(bs: seq<Blk>, s: nat, j: nat, i: nat)
    requires AllOk(bs) && NoneLater(bs, s, j, i)
    ensures s <= j <= i < |bs|
  {
  }

  lemma AfterCut(bs: seq<Blk>, t: nat, r: nat, e: nat, t': nat)
    requires AllOk(bs) && InOrder(bs) && Sources(bs) && t < |bs| && r < e < |bs| && e <= t' < |bs| && t < e
    requires SameSource(bs[r], bs[t]) && Rk(bs[t]) == Rk(bs[r]) && LessEq(LastOf(bs[t]), LastOf(bs[r])) && !Joins(bs[r], bs[e])
    ensures FileEnd(bs[t]) <= FileStart(bs[t'])
  {
    hide Ok, LastOf, Less, FileStart, FileEnd, Prod;
    var (a, c, d) := (bs[t], bs[e], bs[t']);
    assert SourcesOf(a, d) && SourcesOf(bs[r], c) && SourcesOf(a, bs[r]) && SourcesOf(c, d) && SourcesOf(a, c);
    assert !Precedes(c, a) && !Precedes(d, a);
    if e < t' { assert !Precedes(d, c); }
    SameRanks(a, c);
    SameRanks(a, d);
    SameRanks(c, d);
    if Base(a) < Base(d) {
      OtherSource(a, d);
    } else {
      assert Base(a) == Base(c) == Base(d) == Base(bs[r]);
      SameRanks(bs[r], c);
      LessTotal(c.isect.dstart, LastOf(bs[r]));
      LessTotal(c.isect.dstart, d.isect.dstart);
      LessEqLess(LastOf(a), LastOf(bs[r]), c.isect.dstart);
      LessEqLess(LastOf(a), c.isect.dstart, d.isect.dstart);
      FileCut(a, d);
    }
  }

  lemma SameRanks(a: Blk, b: Blk)
    requires Ok(a) && Ok(b) && SourcesOf(a, b)
    ensures |LastOf(a)| == Rk(a) && |LastOf(b)| == Rk(b) && |a.isect.dstart| == Rk(a) && |b.isect.dstart| == Rk(b)
    ensures SameSource(a, b) ==> Rk(a) == Rk(b)
  {
  }

  // ----- all groups -----

  lemma {:induction false} GroupsMember(bs: seq<Blk>, s: nat, b: nat, j: nat) returns (t: nat)
    requires AllOk(bs) && GroupsOk(Groups(bs, s)) && b < |Groups(bs, s)| && j < |Groups(bs, s)[b]|
    ensures s <= t < |bs| && Groups(bs, s)[b][j] == bs[t]
    decreases |bs| - s
  {
    hide Ok, GroupEnd;
    GroupsAreOk(bs, GroupEnd(bs, s, s));
    if b == 0 {
      t := s + j;
    } else {
      t := GroupsMember(bs, GroupEnd(bs, s, s), b - 1, j);
    }
  }

  lemma {:induction false} RealFrom(bs: seq<Blk>, s: nat)
    requires AllOk(bs) && EveryCutReal(bs)
    ensures GroupsOk(Groups(bs, s)) && CutsReal(Groups(bs, s))
    decreases |bs| - s
  {
    hide Ok, GroupEnd, FileStart, FileEnd, EveryCutReal, CutsReal, FirstReal;
    GroupsAreOk(bs, s);
    if s >= |bs| {
      NoGroups();
    } else {
      var gs, e := Groups(bs, s), GroupEnd(bs, s, s);
      GroupsAreOk(bs, e);
      RealFrom(bs, e);
      assert gs[1..] == Groups(bs, e);
      CutsSplit(gs);
      FirstIsReal(bs, s);
    }
  }

  lemma NoGroups()
    ensures CutsReal([])
  {
  }

  lemma FirstIsReal(bs: seq<Blk>, s: nat)
    requires AllOk(bs) && EveryCutReal(bs) && s < |bs| && GroupsOk(Groups(bs, s))
    ensures Groups(bs, s) != [] && FirstReal(Groups(bs, s))
  {
    hide Ok, GroupEnd, FileStart, FileEnd;
    var gs, e := Groups(bs, s), GroupEnd(bs, s, s);
    GroupsAreOk(bs, e);
    forall b, i, j | 0 < b < |gs| && 0 <= i < |gs[0]| && 0 <= j < |gs[b]|
      ensures FileEnd(gs[0][i]) <= FileStart(gs[b][j])
    {
      assert gs[b] == Groups(bs, e)[b - 1];
      var t := GroupsMember(bs, e, b - 1, j);
      assert CutReal(bs, s, e, s + i, t);
    }
  }

  ghost predicate CutReal(bs: seq<Blk>, s: nat, e: nat, t: nat, t': nat)
    requires AllOk(bs)
  {
    s <= t < e <= t' < |bs| ==> FileEnd(bs[t]) <= FileStart(bs[t'])
  }

  ghost predicate EveryCutReal(bs: seq<Blk>)
    requires AllOk(bs)
  {
    forall s, t, t' {:trigger CutReal(bs, s, GroupEnd(bs, s, s), t, t')} :: 0 <= s < |bs| && 0 <= t && 0 <= t' ==>
      CutReal(bs, s, GroupEnd(bs, s, s), t, t')
  }

  /** On a chain of ends the grouping separates every pair of intersections that do not interleave. */
  lemma ChainCutsReal(bs: seq<Blk>)
    requires AllOk(bs) && InOrder(bs) && Sources(bs) && EndsChain(bs)
    ensures GroupsOk(Groups(bs, 0)) && CutsReal(Groups(bs, 0))
  {
    hide Ok, GroupEnd, FileStart, FileEnd, Sources, InOrder, EndsChain, Joins;
    forall s, t, t' {:trigger CutReal(bs, s, GroupEnd(bs, s, s), t, t')} | 0 <= s < |bs| && 0 <= t && 0 <= t'
      ensures CutReal(bs, s, GroupEnd(bs, s, s), t, t')
    {
      var e := GroupEnd(bs, s, s);
      if s <= t < e <= t' < |bs| {
        StartRunner(bs, s);
        var r := Runner(bs, s, s, s);
        assert LessEq(LastOf(bs[t]), LastOf(bs[r]));
        AfterCut(bs, t, r, e, t');
      }
    }
    RealFrom(bs, 0);
  }

  lemma StartRunner(bs: seq<Blk>, s: nat)
    requires AllOk(bs) && s < |bs|
    ensures NoneLater(bs, s, s, s)
  {
  }

  /** In one dimension every read has a legal file type. */
  lemma OneDimensionIsChained(bs: seq<Blk>)
    requires AllOk(bs) && Sources(bs) && forall i :: 0 <= i < |bs| ==> Rk(bs[i]) <= 1
    ensures EndsChain(bs)
  {
    hide Ok, Prod, LastOf;
    forall i, j | 0 <= i < |bs| && 0 <= j < |bs| && SameSource(bs[i], bs[j]) ensures Chained(bs[i], bs[j])
    {
      assert SourcesOf(bs[i], bs[j]);
      SameRanks(bs[i], bs[j]);
    }
  }

  // ----- intersections that follow one another -----

  /** Each intersection of an entry block ends before the next one of it starts. */
  ghost predicate Stepwise(bs: seq<Blk>)
    requires AllOk(bs)
  {
    forall i, j :: 0 <= i < j < |bs| && SameSource(bs[i], bs[j]) ==> Rk(bs[i]) == Rk(bs[j]) && Less(LastOf(bs[i]), bs[j].isect.dstart)
  }

  lemma StepwiseSingle(bs: seq<Blk>, s: nat)
    requires AllOk(bs) && Stepwise(bs) && s < |bs|
    ensures GroupEnd(bs, s, s) == s + 1
  {
    if s + 1 < |bs| && Joins(bs[s], bs[s + 1]) {
      LessEqLess(bs[s + 1].isect.dstart, LastOf(bs[s]), bs[s + 1].isect.dstart);
      LessIrrefl(bs[s + 1].isect.dstart);
    }
  }

  lemma {:induction false} StepwiseGroups(bs: seq<Blk>, s: nat)
    requires AllOk(bs) && Stepwise(bs)
    ensures forall i :: 0 <= i < |Groups(bs, s)| ==> |Groups(bs, s)[i]| == 1
    decreases |bs| - s
  {
    hide Ok, GroupEnd, Stepwise;
    if s < |bs| {
      StepwiseSingle(bs, s);
      StepwiseGroups(bs, s + 1);
    }
  }

  /** Then every group is a single intersection, and the file type is legal. */
  lemma StepwiseCutsReal(bs: seq<Blk>)
    requires AllOk(bs) && InOrder(bs) && Sources(bs) && Stepwise(bs)
    ensures GroupsOk(Groups(bs, 0)) && CutsReal(Groups(bs, 0))
    ensures forall i :: 0 <= i < |Groups(bs, 0)| ==> |Groups(bs, 0)[i]| == 1
  {
    hide Ok, GroupEnd, FileStart, FileEnd, LastOf, Less, Prod;
    forall s, t, t' {:trigger CutReal(bs, s, GroupEnd(bs, s, s), t, t')} | 0 <= s < |bs| && 0 <= t && 0 <= t'
      ensures CutReal(bs, s, GroupEnd(bs, s, s), t, t')
    {
      StepwiseSingle(bs, s);
      if s <= t < s + 1 <= t' < |bs| {
        assert SourcesOf(bs[t], bs[t']) && !Precedes(bs[t'], bs[t]);
        if SameSource(bs[t], bs[t']) { FileCut(bs[t], bs[t']); } else { OtherSource(bs[t], bs[t']); }
      }
    }
    RealFrom(bs, 0);
    StepwiseGroups(bs, 0);
  }

  // ----- a read that is planned wrongly -----

  function Part(dstart: Coord, count: Coord, soff: nat): Blk
  {
    Blk(Isect(0, 100, 0, dstart, [10, 10], [0, 0], count, count, soff), 1, 0)
  }

  /** Three reads of one 10 x 10 entry: columns 0-4 of all rows, columns 5-7 of rows 1-2, the element (5, 5).
      The second is taken to end last because it reaches a higher column, so the third is put in a group of its
      own although it lies between rows of the first. */
  function ThreeReads(): seq<Blk>
  {
    [Part([0, 0], [10, 5], 0), Part([1, 5], [2, 3], 50), Part([5, 5], [1, 1], 56)]
  }

  lemma ThreeReadsFacts()
    ensures var bs := ThreeReads(); AllOk(bs) && InOrder(bs) && Sources(bs)
    ensures var bs := ThreeReads(); LastOf(bs[0]) == [9, 4] && LastOf(bs[1]) == [2, 7]
  {
    hide Less, Prod;
    var bs := ThreeReads();
    ThreeReadsOk();
    ThreeReadsSources();
    LessByPrefix(bs[0].isect.dstart, bs[1].isect.dstart, 0);
    LessByPrefix(bs[0].isect.dstart, bs[2].isect.dstart, 0);
    LessByPrefix(bs[1].isect.dstart, bs[2].isect.dstart, 0);
    LessAsym(bs[0].isect.dstart, bs[1].isect.dstart);
    LessAsym(bs[0].isect.dstart, bs[2].isect.dstart);
    LessAsym(bs[1].isect.dstart, bs[2].isect.dstart);
    assert LastOf(bs[0]) == [9, 4] && LastOf(bs[1]) == [2, 7];
  }

  lemma ThreeReadsOk()
    ensures AllOk(ThreeReads())
  {
    var bs := ThreeReads();
    assert Ok(bs[0]) && Ok(bs[1]) && Ok(bs[2]);
  }

  lemma ThreeReadsSources()
    ensures AllOk(ThreeReads()) && Sources(ThreeReads())
  {
    hide Ok, Prod;
    ThreeReadsOk();
    var bs := ThreeReads();
    forall i, j | 0 <= i < 3 && 0 <= j < 3 ensures SourcesOf(bs[i], bs[j]) {}
  }

  lemma GroupingIsNotAlwaysRight()
    ensures var bs := ThreeReads();
            AllOk(bs) && InOrder(bs) && Sources(bs) && Groups(bs, 0) == [bs[..2], bs[2..]] &&
            GroupsOk(Groups(bs, 0)) && !CutsReal(Groups(bs, 0))
  {
    var bs := ThreeReads();
    ThreeReadsFacts();
    LessByPrefix(bs[1].isect.dstart, LastOf(bs[0]), 0);
    assert Joins(bs[0], bs[1]);
    assert EndsAfter(bs[1], bs[0]) by { assert LastOf(bs[1])[1] > LastOf(bs[0])[1]; }
    LessByPrefix(LastOf(bs[1]), bs[2].isect.dstart, 0);
    LessAsym(LastOf(bs[1]), bs[2].isect.dstart);
    assert !Joins(bs[1], bs[2]);
    assert GroupEnd(bs, 0, 0) == 2 && GroupEnd(bs, 2, 2) == 3;
    assert Groups(bs, 3) == [] && Groups(bs, 2) == [bs[2..3]] && bs[2..3] == bs[2..];
    GroupsAreOk(bs, 0);
    LessByPrefix(bs[2].isect.dstart, LastOf(bs[0]), 0);
    LessAsym(bs[2].isect.dstart, LastOf(bs[0]));
    FileCut(bs[0], bs[2]);
    var gs := Groups(bs, 0);
    assert gs[0][0] == bs[0] && gs[1][0] == bs[2];
    assert !(FileEnd(gs[0][0]) <= FileStart(gs[1][0]));
  }
}
