/** Requests made by the canonicaliser: their blocks follow one another, as the read path wants them. */
module CanonicalRead {
  import opened Grid
  import opened MetaCodec
  import opened BlockMerge
  import opened CanonicalForm
  import opened SlotFill
  import opened ReadOrder
  import ReadPath
  import ReadRequest

  lemma {:induction false} InLaterBlock(n: nat, bs: seq<Block>, j: nat, x: Coord)
    requires AllWF(n, bs) && j < |bs| && InBox(x, bs[j])
    ensures x in TravAll(bs)
  {
    hide Trav, InBox;
    TravAllMember(bs, x);
  }

  lemma CornersIn(n: nat, b: Block)
    requires WF(n, b)
    ensures InBox(b.start, b) && InBox(Last(b), b)
  {
  }

  /** A selection that is traversed in strictly increasing order is a list of blocks in sequence, without a
      common element. */
  lemma {:induction false} IncreasingIsInSequence(n: nat, bs: seq<Block>)
    requires AllWF(n, bs) && Increasing(TravAll(bs))
    ensures Rank(n, bs) && InSequence(n, bs) && forall i, j :: 0 <= i < j < |bs| ==> ReadPath.BoxesApart(bs[i], bs[j])
    decreases |bs|
  {
    hide Trav, InBox, Less, Increasing;
    if bs != [] {
      var a, t := bs[0], bs[1..];
      IncreasingSuffix(Trav(a), TravAll(t));
      IncreasingIsInSequence(n, t);
      forall j | 0 < j < |bs| ensures Less(Last(bs[0]), bs[j].start) && ReadPath.BoxesApart(bs[0], bs[j])
      {
        HeadBeforeBlock(n, bs, j);
      }
      assert forall i :: 0 <= i < |t| ==> t[i] == bs[i + 1];
    }
  }

  lemma HeadBefore(n: nat, a: Block, t: seq<Block>, p: Coord, q: Coord)
    requires WF(n, a) && AllWF(n, t) && Increasing(Trav(a) + TravAll(t)) && p in Trav(a) && q in TravAll(t)
    ensures |p| == |q| && Less(p, q)
  {
    hide Trav, TravAll, Less;
    var s := Trav(a) + TravAll(t);
    var i :| 0 <= i < |Trav(a)| && Trav(a)[i] == p;
    var j :| 0 <= j < |TravAll(t)| && TravAll(t)[j] == q;
    assert s[i] == p && s[|Trav(a)| + j] == q;
  }

  lemma HeadBeforeBlock(n: nat, bs: seq<Block>, j: nat)
    requires AllWF(n, bs) && Increasing(TravAll(bs)) && 0 < j < |bs|
    ensures Less(Last(bs[0]), bs[j].start) && ReadPath.BoxesApart(bs[0], bs[j])
  {
    hide Trav, InBox, Less, Increasing, Last;
    var t := bs[1..];
    assert t[j - 1] == bs[j];
    BeforeBlock(n, bs[0], t, j - 1);
  }

  lemma BeforeBlock(n: nat, a: Block, t: seq<Block>, j: nat)
    requires WF(n, a) && AllWF(n, t) && Increasing(Trav(a) + TravAll(t)) && j < |t|
    ensures Less(Last(a), t[j].start) && ReadPath.BoxesApart(a, t[j])
  {
    hide Trav, TravAll, InBox, Less, Increasing, Last;
    CornersIn(n, a);
    CornersIn(n, t[j]);
    BeforeElement(n, a, t, j, Last(a), t[j].start);
    forall x: Coord | InBox(x, a) ensures !InBox(x, t[j])
    {
      if InBox(x, t[j]) {
        BeforeElement(n, a, t, j, x, x);
        LessIrrefl(x);
      }
    }
  }

  lemma BeforeElement(n: nat, a: Block, t: seq<Block>, j: nat, x: Coord, y: Coord)
    requires WF(n, a) && AllWF(n, t) && Increasing(Trav(a) + TravAll(t)) && j < |t| && InBox(x, a) && InBox(y, t[j])
    ensures |x| == |y| && Less(x, y)
  {
    hide Trav, TravAll, InBox, Less, Increasing;
    TravMember(a, x);
    InLaterBlock(n, t, j, y);
    HeadBefore(n, a, t, x, y);
  }

  /** A selection in HDF5's span order comes out in strictly increasing row-major order and complete exactly if
      no group is written through a slot that shares a row. */
  lemma SpanOrderExactly(n: nat, spans: seq<Block>)
    requires n > 0 && AllWF(n, spans) && Disjoint(n, spans)
    requires KeysIncrease(n, false, spans) && KeysIncrease(n, true, spans)
    ensures Shaped(Result(n, spans))
    ensures Clean(n, spans) <==>
            Increasing(TravAll(Result(n, spans))) && forall c :: c in TravAll(Result(n, spans)) <==> Covers(n, spans, c)
  {
    hide Canonical, Result, Clean, Increasing, KeysIncrease, Disjoint, Covers;
    ResultExactly(n, spans);
    CanonicalSpanOrder(n, spans);
  }

  /** What the program then makes of a hyperslab selection is a request whose blocks are in sequence and have no
      element in common. */
  lemma SpanOrderIsInSequence(n: nat, spans: seq<Block>)
    requires n > 0 && AllWF(n, spans) && Disjoint(n, spans) && Clean(n, spans)
    requires KeysIncrease(n, false, spans) && KeysIncrease(n, true, spans)
    ensures var qs := Result(n, spans);
            Rank(n, qs) && InSequence(n, qs) && forall i, j :: 0 <= i < j < |qs| ==> ReadPath.BoxesApart(qs[i], qs[j])
  {
    hide Canonical, Result, Clean, Increasing, KeysIncrease, Disjoint;
    ResultExactly(n, spans);
    CanonicalSpanOrder(n, spans);
    IncreasingIsInSequence(n, Canonical(n, spans));
  }

  /** From the selection to the file type: a read of a hyperslab selection in HDF5's span order, canonicalised
      without a shared slot, uses a legal file type whatever the log holds, and asks for no element twice. */
  lemma SpanOrderReadsLegally(n: nat, spans: seq<Block>, esize: nat, es: seq<Entry>)
    requires n > 0 && AllWF(n, spans) && Disjoint(n, spans) && Clean(n, spans)
    requires KeysIncrease(n, false, spans) && KeysIncrease(n, true, spans)
    requires ReadPath.Searchable(n, esize, es, Result(n, spans))
    ensures ReadRequest.ViewsLegal(n, esize, es, Result(n, spans))
    ensures ReadPath.Readable(n, esize, es, Result(n, spans))
  {
    hide Result, Clean, KeysIncrease, Disjoint, ReadPath.Searchable, ReadRequest.ViewsLegal, InSequence;
    SpanOrderIsInSequence(n, spans);
    ReadRequest.InSequenceViews(n, esize, es, Result(n, spans));
    ReadPath.SearchableRanks(n, esize, es, Result(n, spans));
  }
}
