/** Two requests, one inside the other: the planner trims the second away, and the copy that replaces it brings it
    other bytes. */
module InnerRead {
  import opened Grid
  import opened MetaCodec
  import opened IndexSearch
  import opened SortOffsets
  import opened Trim
  import opened ReadPlan
  import opened ReadGroups
  import opened ReadTypes
  import opened ReadLegal
  import opened ReadPath
  import opened ReadBatch

  /** Ten elements of one byte, written by one call. */
  function Line(): Entry
  {
    Entry(Hdr(0, 0, Flags(false, false, false, false), 0, 10), [Sel([0], [10], 0)])
  }

  /** Elements 0 to 3, and elements 1 and 2. */
  function TwoRequests(): (qs: seq<Block>)
  {
    [Block([0], [4]), Block([1], [2])]
  }

  function Span(start: nat, count: nat, soff: nat): Blk
  {
    Blk(Isect(0, 10, 0, [start], [10], [0], [count], [count], soff), 1, 0)
  }

  function TwoSpans(): seq<Blk> { [Span(0, 4, 0), Span(1, 2, 4)] }

  lemma SpanIsFound(start: nat, count: nat, soff: nat)
    requires 0 < count && start + count <= 10
    ensures BlockHits([Line()], Block([start], [count]), soff) == [Span(start, count, soff).isect]
  {
    var e, q := Line(), Block([start], [count]);
    var s := e.sels[0];
    assert MeetAt(SelBlock(s), q, 0);
    var c := Common(SelBlock(s), q);
    assert c.start == [start] && c.count == [count];
    assert Sub(c.start, s.start) == [start] && Sub(c.start, q.start) == [0];
    assert e.sels[1..] == [] && [e][1..] == [];
  }

  lemma SpansFound()
    ensures Rank(1, TwoRequests()) && Ranked(1, [Line()]) && Found(1, 1, [Line()], TwoRequests(), 0, TwoSpans())
  {
    hide BlockHits;
    var es, qs := [Line()], TwoRequests();
    SpanIsFound(0, 4, 0);
    SpanIsFound(1, 2, 4);
    assert Prod([4]) == 4 by { assert [4][1..] == []; }
    assert qs[1..] == [qs[1]] && [qs[1]][1..] == [];
    assert SearchList(1, 1, es, qs[1..], 4) == [TwoSpans()[1].isect] + [];
    assert SearchList(1, 1, es, qs, 0) == [TwoSpans()[0].isect, TwoSpans()[1].isect];
    assert AsBlks(SearchList(1, 1, es, qs, 0), 1, 0) == TwoSpans();
  }

  lemma OneEntryOnly()
    ensures Searchable(1, 1, [Line()], TwoRequests()) && NoneTwice([Line()])
  {
    forall j: nat, m: nat | IsSel([Line()], j, m) ensures j == 0 && m == 0 && Positive(SelAt([Line()], j, m).count) {}
  }

  lemma SpanRuns(start: nat, count: nat, soff: nat)
    requires 0 < count && start + count <= 10
    ensures Ok(Span(start, count, soff)) && Runs(Span(start, count, soff)) == [Piece(start, soff, count)]
  {
    var b := Span(start, count, soff);
    assert Leading(b) == [] && RunCount(b) == 1;
    assert Add([start], [0]) == [start] && Add([0], [0]) == [0] && [] + [0] == [0];
    assert Linear([10], [start]) == start && Linear([count], [0]) == 0 by { assert [10][1..] == [] && [count][1..] == []; }
    assert RunNo(b, 0) == RunOf(b, []);
  }

  lemma SpansAreOneGroup()
    ensures var bs := TwoSpans();
            AllOk(bs) && InOrder(bs) && Groups(bs, 0) == [bs] && AllRuns(bs) == [Piece(0, 0, 4), Piece(1, 4, 2)]
  {
    hide Runs;
    var bs := TwoSpans();
    SpanRuns(0, 4, 0);
    SpanRuns(1, 2, 4);
    assert LastOf(bs[0]) == [3];
    assert Joins(bs[0], bs[1]);
    assert GroupEnd(bs, 0, 0) == 2 && bs[0..2] == bs && Groups(bs, 2) == [];
    assert bs[1..] == [bs[1]] && [bs[1]][1..] == [];
    assert AllRuns(bs[1..]) == Runs(bs[1]) + [];
    assert !Precedes(bs[1], bs[0]);
  }

  /** Two pieces in the order of different file offsets. */
  lemma OnlyOrder(p: Piece, q: Piece, r: seq<Piece>)
    requires p.foff < q.foff && multiset(r) == multiset([p, q]) && SortedRange(r, 0, |r|)
    ensures r == [p, q]
  {
    assert |r| == |multiset(r)| == 2;
    assert r == [r[0], r[1]];
    assert r[0] in multiset(r) && r[1] in multiset(r);
    assert multiset(r) == multiset{r[0], r[1]};
    assert p in multiset(r) && q in multiset(r);
  }

  /** The planner makes one group of the two; whatever plan follows, there are contents of file and memory with which
      an element of a request does not get its byte. */
  lemma InnerRequestIsNotServed(rs: seq<seq<Piece>>)
    requires AllOk(TwoSpans()) && PlanOk(Groups(TwoSpans(), 0), rs)
    ensures Searchable(1, 1, [Line()], TwoRequests()) && NoneTwice([Line()]) && Found(1, 1, [Line()], TwoRequests(), 0, TwoSpans())
    ensures InOrder(TwoSpans()) && Groups(TwoSpans(), 0) == [TwoSpans()] && rs == [[Piece(0, 0, 4), Piece(1, 4, 2)]]
    ensures exists mem: Store, file: Store :: !BatchServed(1, 1, [Line()], TwoRequests(), 0, TwoSpans(), rs, mem, file)
  {
    hide Found, Searchable, NoneTwice, BatchServed, InOrder, Groups, Served, AllRuns, Overlaps, CleanEnds, Ok;
    SpansFound();
    OneEntryOnly();
    SpansAreOneGroup();
    assert GroupOk(TwoSpans(), rs[0]);
    OnlyOrder(Piece(0, 0, 4), Piece(1, 4, 2), rs[0]);
    InnerRangeIsNotServed();
    assert !CleanGroups(Groups(TwoSpans(), 0), rs);
    BatchIsServed(1, 1, [Line()], TwoRequests(), 0, TwoSpans(), rs);
  }
}
