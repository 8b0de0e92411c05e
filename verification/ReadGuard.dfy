/** Exactly when the planned file type is legal, in terms of the grouping loop's own guard on the sorted
    intersections; and a search result for which it is not. */
module ReadGuard {
  import opened Grid
  import opened MetaCodec
  import opened EntryCodec
  import opened IndexSearch
  import opened SortOffsets
  import opened Trim
  import opened ReadPlan
  import opened ReadGroups
  import opened ReadTypes
  import opened ReadLegal
  import opened ReadCuts
  import opened ReadWins
  import opened ReadPath

  /** The block that the loop holds to end last when it looks at block i + 1. */
  function Held(bs: seq<Blk>, i: nat): (j: nat)
    requires AllOk(bs) && i < |bs|
    ensures j <= i
    decreases i
  {
    if i == 0 then 0
    else
      var j := Held(bs, i - 1);
      if Joins(bs[j], bs[i]) && !EndsAfter(bs[i], bs[j]) then j else i
  }

  /** The loop starts a group with block i. */
  predicate CutsAt(bs: seq<Blk>, i: nat)
    requires AllOk(bs)
  {
    0 < i < |bs| && !Joins(bs[Held(bs, i - 1)], bs[i])
  }

  /** The guard: where the loop starts a new group because the next block does not interleave with the one it holds,
      the next block starts behind every earlier block of the same entry block, not only behind that one. */
  ghost predicate CutsClean(bs: seq<Blk>)
    requires AllOk(bs)
  {
    forall i: nat, t: nat :: t < i && CutsAt(bs, i) ==> StartsBehind(bs, t, i)
  }

  ghost predicate StartsBehind(bs: seq<Blk>, t: nat, i: nat)
    requires AllOk(bs)
  {
    t < |bs| && i < |bs| &&
    (SameSource(bs[t], bs[i]) ==> |LastOf(bs[t])| == |bs[i].isect.dstart| && Less(LastOf(bs[t]), bs[i].isect.dstart))
  }

  // ----- groups are what lies between cuts -----

  /** From block i on, holding block j, the group goes on to the next cut. */
  lemma {:induction false} GroupRuns(bs: seq<Blk>, j: nat, i: nat)
    requires AllOk(bs) && i < |bs| && j == Held(bs, i)
    ensures forall t :: i < t < GroupEnd(bs, j, i) ==> !CutsAt(bs, t)
    ensures GroupEnd(bs, j, i) < |bs| ==> CutsAt(bs, GroupEnd(bs, j, i))
    decreases |bs| - i
  {
    hide Ok, Interleaves, EndsAfter, SameSource;
    if i + 1 < |bs| && Joins(bs[j], bs[i + 1]) {
      GroupRuns(bs, if EndsAfter(bs[i + 1], bs[j]) then i + 1 else j, i + 1);
    }
  }

  lemma CutStarts(bs: seq<Blk>, i: nat)
    requires AllOk(bs) && CutsAt(bs, i)
    ensures Held(bs, i) == i
  {
    hide Ok, Joins, EndsAfter;
  }

  // ----- one group against the blocks behind it -----

  /** Every block from s to e ends before any from e on starts. */
  ghost predicate Apart(bs: seq<Blk>, s: nat, e: nat)
    requires AllOk(bs)
  {
    forall t, u :: s <= t < e <= u < |bs| ==> FileEnd(bs[t]) <= FileStart(bs[u])
  }

  ghost predicate CleanBehind(bs: seq<Blk>, s: nat, e: nat)
    requires AllOk(bs)
  {
    forall i: nat, t: nat :: s <= t < e <= i && CutsAt(bs, i) ==> StartsBehind(bs, t, i)
  }

  /** Two blocks of which the later one in the order starts behind the earlier one. */
  lemma InOrderApart(bs: seq<Blk>, t: nat, e: nat, u: nat)
    requires AllOk(bs) && InOrder(bs) && Sources(bs) && t < e <= u < |bs| && StartsBehind(bs, t, e)
    ensures FileEnd(bs[t]) <= FileStart(bs[u])
  {
    hide Ok, LastOf, Less, FileStart, FileEnd, Prod;
    var (a, c, d) := (bs[t], bs[e], bs[u]);
    assert SourcesOf(a, d) && SourcesOf(c, d) && SourcesOf(a, c);
    assert !Precedes(c, a) && !Precedes(d, a);
    if e < u { assert !Precedes(d, c); }
    SameRanks(a, c);
    SameRanks(a, d);
    SameRanks(c, d);
    if Base(a) < Base(d) {
      OtherSource(a, d);
    } else {
      assert Base(a) == Base(c) == Base(d);
      LessTotal(c.isect.dstart, d.isect.dstart);
      LessEqLess(LastOf(a), c.isect.dstart, d.isect.dstart);
      FileCut(a, d);
    }
  }

  lemma ApartExactly(bs: seq<Blk>, s: nat, e: nat)
    requires AllOk(bs) && InOrder(bs) && Sources(bs) && s < e <= |bs| && (e < |bs| ==> CutsAt(bs, e))
    ensures Apart(bs, s, e) <==> CleanBehind(bs, s, e)
  {
    hide Ok, FileStart, FileEnd, CutsAt, InOrder, Less, LastOf, Prod;
    if Apart(bs, s, e) {
      CutsInside(bs);
      forall i: nat, t: nat | s <= t < e <= i && CutsAt(bs, i) ensures StartsBehind(bs, t, i)
      {
        assert FileEnd(bs[t]) <= FileStart(bs[i]);
        assert SourcesOf(bs[t], bs[i]);
        SameRanks(bs[t], bs[i]);
        if SameSource(bs[t], bs[i]) { FileCut(bs[t], bs[i]); }
      }
    }
    if CleanBehind(bs, s, e) {
      forall t, u | s <= t < e <= u < |bs| ensures FileEnd(bs[t]) <= FileStart(bs[u])
      {
        assert CutsAt(bs, e);
        InOrderApart(bs, t, e, u);
      }
    }
  }

  lemma CutsInside(bs: seq<Blk>)
    requires AllOk(bs)
    ensures forall i: nat :: CutsAt(bs, i) ==> i < |bs|
  {
  }

  // ----- all groups -----

  lemma {:induction false} MemberGroups(bs: seq<Blk>, s: nat, t: nat) returns (b: nat, j: nat)
    requires AllOk(bs) && GroupsOk(Groups(bs, s)) && s <= t < |bs|
    ensures b < |Groups(bs, s)| && j < |Groups(bs, s)[b]| && Groups(bs, s)[b][j] == bs[t]
    decreases |bs| - s
  {
    hide Ok, GroupEnd;
    var e := GroupEnd(bs, s, s);
    GroupsAreOk(bs, e);
    if t < e {
      b, j := 0, t - s;
    } else {
      b, j := MemberGroups(bs, e, t);
      b := b + 1;
    }
  }

  lemma FirstApart(bs: seq<Blk>, s: nat)
    requires AllOk(bs) && s < |bs| && GroupsOk(Groups(bs, s))
    ensures Groups(bs, s) != [] && (FirstReal(Groups(bs, s)) <==> Apart(bs, s, GroupEnd(bs, s, s)))
  {
    hide Ok, GroupEnd, FileStart, FileEnd;
    var gs, e := Groups(bs, s), GroupEnd(bs, s, s);
    GroupsAreOk(bs, e);
    assert gs[1..] == Groups(bs, e);
    if FirstReal(gs) {
      forall t, u | s <= t < e <= u < |bs| ensures FileEnd(bs[t]) <= FileStart(bs[u])
      {
        var b, j := MemberGroups(bs, e, u);
        assert gs[b + 1][j] == bs[u] && gs[0][t - s] == bs[t];
      }
    }
    if Apart(bs, s, e) {
      forall b, i, j | 0 < b < |gs| && 0 <= i < |gs[0]| && 0 <= j < |gs[b]| ensures FileEnd(gs[0][i]) <= FileStart(gs[b][j])
      {
        assert gs[b] == gs[1..][b - 1];
        var u := GroupsMember(bs, e, b - 1, j);
        assert gs[0][i] == bs[s + i];
      }
    }
  }

  ghost predicate CleanFrom(bs: seq<Blk>, s: nat)
    requires AllOk(bs)
  {
    forall i: nat, t: nat :: s <= t < i && CutsAt(bs, i) ==> StartsBehind(bs, t, i)
  }

  lemma CleanSplit(bs: seq<Blk>, s: nat, e: nat)
    requires AllOk(bs) && s < e && forall t :: s < t < e ==> !CutsAt(bs, t)
    ensures CleanFrom(bs, s) <==> CleanBehind(bs, s, e) && CleanFrom(bs, e)
  {
    hide Ok, CutsAt, StartsBehind;
  }

  lemma {:induction false} RealExactly(bs: seq<Blk>, s: nat)
    requires AllOk(bs) && InOrder(bs) && Sources(bs) && (s < |bs| ==> Held(bs, s) == s)
    ensures GroupsOk(Groups(bs, s)) && (CutsReal(Groups(bs, s)) <==> CleanFrom(bs, s))
    decreases |bs| - s
  {
    hide Ok, InOrder, Sources, GroupEnd, CutsAt, StartsBehind, FileStart, FileEnd, CutsReal, FirstReal, Apart, CleanBehind, CleanFrom;
    GroupsAreOk(bs, s);
    if s >= |bs| {
      NothingBehind(bs, s);
    } else {
      var e := GroupEnd(bs, s, s);
      GroupRuns(bs, s, s);
      if e < |bs| { CutStarts(bs, e); }
      RealExactly(bs, e);
      assert Groups(bs, s)[1..] == Groups(bs, e);
      CutsSplit(Groups(bs, s));
      FirstApart(bs, s);
      ApartExactly(bs, s, e);
      CleanSplit(bs, s, e);
    }
  }

  lemma NothingBehind(bs: seq<Blk>, s: nat)
    requires AllOk(bs) && s >= |bs|
    ensures Groups(bs, s) == [] && CutsReal([]) && CleanFrom(bs, s)
  {
    hide Ok, Joins;
  }

  /** The file type is legal exactly when the loop's cuts are clean. */
  lemma LegalExactly(bs: seq<Blk>, rs: seq<seq<Piece>>)
    requires AllOk(bs) && InOrder(bs) && Sources(bs) && PlanOk(Groups(bs, 0), rs)
    ensures Legal(PlanPieces(Groups(bs, 0), rs)) <==> CutsClean(bs)
  {
    hide Ok, InOrder, Sources, Groups, PlanPieces, Legal, CutsAt, StartsBehind, PlanOk, CutsReal;
    if |bs| > 0 { HeldFirst(bs); }
    RealExactly(bs, 0);
    PlanLegal(Groups(bs, 0), rs);
    assert CleanFrom(bs, 0) <==> CutsClean(bs);
  }

  lemma HeldFirst(bs: seq<Blk>)
    requires AllOk(bs) && |bs| > 0
    ensures Held(bs, 0) == 0
  {
  }

  // ----- the read that is planned wrongly is the result of a search -----

  /** One entry of 10 x 10 elements of one byte. */
  function TenByTen(): Entry
  {
    Entry(Hdr(0, 0, Flags(false, false, false, false), 0, 100), [Sel([0, 0], [10, 10], 0)])
  }

  function ThreeRequests(): (qs: seq<Block>)
  {
    [Block([0, 0], [10, 5]), Block([1, 5], [2, 3]), Block([5, 5], [1, 1])]
  }

  lemma PartIsFound(q: Block, soff: nat)
    requires |q.start| == |q.count| == 2 && Positive(q.count) && q.start[0] + q.count[0] <= 10 && q.start[1] + q.count[1] <= 10
    ensures BlockHits([TenByTen()], q, soff) == [Part(q.start, q.count, soff).isect]
  {
    var e := TenByTen();
    var s := e.sels[0];
    forall k | 0 <= k < 2 ensures MeetAt(SelBlock(s), q, k) {}
    var c := Common(SelBlock(s), q);
    assert c.start == q.start && c.count == q.count;
    assert Sub(c.start, s.start) == q.start && Sub(c.start, q.start) == [0, 0];
    assert e.sels[1..] == [] && [e][1..] == [];
  }

  lemma ThreeReadsFound()
    ensures Rank(2, ThreeRequests()) && Ranked(2, [TenByTen()]) && Found(2, 1, [TenByTen()], ThreeRequests(), 0, ThreeReads())
  {
    hide BlockHits;
    var es, qs := [TenByTen()], ThreeRequests();
    PartIsFound(qs[0], 0);
    PartIsFound(qs[1], 50);
    PartIsFound(qs[2], 56);
    assert qs[1..][1..] == [qs[2]] && qs[1..][0] == qs[1] && [qs[2]][1..] == [];
    assert Prod([10, 5]) == 50 && Prod([2, 3]) == 6 by { assert [10, 5][1..] == [5] && [5][1..] == [] && [2, 3][1..] == [3] && [3][1..] == []; }
    assert SearchList(2, 1, es, qs[1..][1..], 56) == [ThreeReads()[2].isect];
    assert SearchList(2, 1, es, qs[1..], 50) == [ThreeReads()[1].isect] + [ThreeReads()[2].isect];
    assert SearchList(2, 1, es, qs, 0) == [ThreeReads()[0].isect, ThreeReads()[1].isect, ThreeReads()[2].isect];
    assert AsBlks(SearchList(2, 1, es, qs, 0), 1, 0) == ThreeReads();
  }

  lemma ApartInDimension(a: Block, b: Block, k: nat)
    requires |a.start| == |a.count| == |b.start| == |b.count| && k < |a.start| && a.start[k] + a.count[k] <= b.start[k]
    ensures BoxesApart(a, b)
  {
    forall x: Coord | InBox(x, a) ensures !InBox(x, b) { assert x[k] < a.start[k] + a.count[k]; }
  }

  lemma ThreeRequestsApart()
    ensures Readable(2, 1, [TenByTen()], ThreeRequests())
  {
    var es, qs := [TenByTen()], ThreeRequests();
    ApartInDimension(qs[0], qs[1], 1);
    ApartInDimension(qs[0], qs[2], 1);
    ApartInDimension(qs[1], qs[2], 0);
    forall j: nat, m: nat | IsSel(es, j, m) ensures Positive(SelAt(es, j, m).count) {}
  }

  /** Three requests without a common element, of one entry, for which the file type is not legal. */
  lemma ThreeReadsIllegal(rs: seq<seq<Piece>>)
    requires AllOk(ThreeReads()) && PlanOk(Groups(ThreeReads(), 0), rs)
    ensures Readable(2, 1, [TenByTen()], ThreeRequests()) && Found(2, 1, [TenByTen()], ThreeRequests(), 0, ThreeReads())
    ensures InOrder(ThreeReads()) && !CutsClean(ThreeReads()) && !Legal(PlanPieces(Groups(ThreeReads(), 0), rs))
  {
    hide Found, Readable, InOrder, PlanOk, Legal, Groups, PlanPieces, CutsReal, CutsClean, Sources;
    ThreeReadsFound();
    ThreeRequestsApart();
    GroupingIsNotAlwaysRight();
    PlanLegal(Groups(ThreeReads(), 0), rs);
    LegalExactly(ThreeReads(), rs);
  }
}
