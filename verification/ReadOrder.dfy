/** Canonical requests: blocks that follow one another are read through a legal file type, one subarray per
    intersection. */
module ReadOrder {
  import opened Grid
  import opened MetaCodec
  import opened EntryCodec
  import opened IndexSearch
  import opened SortOffsets
  import opened Trim
  import opened ReadPlan
  import opened ReadGroups
  import opened ReadTypes
  import opened ReadLegal
  import opened ReadCuts
  import opened ReadWins
  import opened ReadPath

  /** Every block of the request ends before the next one starts, as in the canonicaliser's output. */
  ghost predicate InSequence(n: nat, qs: seq<Block>)
    requires Rank(n, qs)
  {
    (forall i :: 0 <= i < |qs| ==> Positive(qs[i].count)) &&
    forall i, j :: 0 <= i < j < |qs| ==> Less(Last(qs[i]), qs[j].start)
  }

  lemma FollowsInEntry(n: nat, esize: nat, es: seq<Entry>, qs: seq<Block>, xbuf: int, h: Isect, i: nat, h': Isect, i': nat, j: nat, m: nat)
    requires Searchable(n, esize, es, qs) && InSequence(n, qs) && i < i'
    requires IsHit(n, esize, es, qs, h, i, j, m) && IsHit(n, esize, es, qs, h', i', j, m)
    requires Ok(AsBlk(h, esize, xbuf)) && Ok(AsBlk(h', esize, xbuf))
    ensures Less(LastOf(AsBlk(h, esize, xbuf)), h'.dstart)
  {
    hide DataApart, Meets, Soff, Less;
    var s := SelAt(es, j, m);
    var c, c' := Common(SelBlock(s), qs[i]), Common(SelBlock(s), qs[i']);
    PointwiseLessEq(Last(c), Last(qs[i]));
    PointwiseLessEq(qs[i'].start, c'.start);
    LessEqLess(Last(c), Last(qs[i]), qs[i'].start);
    LessEqLess(Last(c), qs[i'].start, c'.start);
    var l := LastOf(AsBlk(h, esize, xbuf));
    assert Add(l, s.start) == Last(c);
    assert Add(h'.dstart, s.start) == c'.start;
    LessShift(l, h'.dstart, s.start);
  }

  lemma FoundSources(n: nat, esize: nat, es: seq<Entry>, qs: seq<Block>, xbuf: int, bs: seq<Blk>)
    requires Searchable(n, esize, es, qs) && Found(n, esize, es, qs, xbuf, bs) && AllOk(bs)
    ensures Sources(bs)
  {
    hide IsHit, Searchable, Found, Ok, Prod;
    SearchableRanks(n, esize, es, qs);
    forall s, t | 0 <= s < |bs| && 0 <= t < |bs| ensures SourcesOf(bs[s], bs[t])
    {
      var i, j, m := FoundSource(n, esize, es, qs, xbuf, bs, s);
      var i', j', m' := FoundSource(n, esize, es, qs, xbuf, bs, t);
      HitOk(n, esize, es, qs, xbuf, bs[s].isect, i, j, m);
      HitOk(n, esize, es, qs, xbuf, bs[t].isect, i', j', m');
      HitRank(n, esize, es, qs, bs[s].isect, i, j, m);
      HitRank(n, esize, es, qs, bs[t].isect, i', j', m');
      TwoSources(n, esize, es, qs, j, m, j', m');
    }
  }

  lemma TwoSources(n: nat, esize: nat, es: seq<Entry>, qs: seq<Block>, j: nat, m: nat, j': nat, m': nat)
    requires Searchable(n, esize, es, qs) && IsSel(es, j, m) && IsSel(es, j', m')
    ensures SelBase(es, j, m) == SelBase(es, j', m') ==> j == j' && m == m'
    ensures SelBase(es, j, m) < SelBase(es, j', m') ==> SelBase(es, j, m) + Prod(SelAt(es, j, m).count) * esize <= SelBase(es, j', m')
  {
    hide Prod;
    if SelBase(es, j, m) == SelBase(es, j', m') { SameBaseSameSel(n, esize, es, qs, j, m, j', m'); }
    assert (j != j' || m != m') ==> Reaches(es, esize, j, m, j', m') || Reaches(es, esize, j', m', j, m);
  }

  lemma SourceOfFound(n: nat, esize: nat, es: seq<Entry>, qs: seq<Block>, xbuf: int, bs: seq<Blk>, s: nat, t: nat)
      returns (i: nat, i': nat, j: nat, m: nat)
    requires Searchable(n, esize, es, qs) && Found(n, esize, es, qs, xbuf, bs) && AllOk(bs) && s < |bs| && t < |bs| && SameSource(bs[s], bs[t])
    ensures IsHit(n, esize, es, qs, bs[s].isect, i, j, m) && IsHit(n, esize, es, qs, bs[t].isect, i', j, m)
    ensures bs[s] == AsBlk(bs[s].isect, esize, xbuf) && bs[t] == AsBlk(bs[t].isect, esize, xbuf)
  {
    hide IsHit, Searchable, Found, Ok;
    SearchableRanks(n, esize, es, qs);
    i, j, m := FoundSource(n, esize, es, qs, xbuf, bs, s);
    var j', m';
    i', j', m' := FoundSource(n, esize, es, qs, xbuf, bs, t);
    HitRank(n, esize, es, qs, bs[s].isect, i, j, m);
    HitRank(n, esize, es, qs, bs[t].isect, i', j', m');
    SameBaseSameSel(n, esize, es, qs, j, m, j', m');
  }

  lemma InSequenceStep(n: nat, esize: nat, es: seq<Entry>, qs: seq<Block>, xbuf: int, bs: seq<Blk>, s: nat, t: nat)
    requires Readable(n, esize, es, qs) && InSequence(n, qs) && Found(n, esize, es, qs, xbuf, bs)
    requires AllOk(bs) && InOrder(bs) && AllApart(bs) && s < t < |bs| && SameSource(bs[s], bs[t])
    ensures Rk(bs[s]) == Rk(bs[t]) && Less(LastOf(bs[s]), bs[t].isect.dstart)
  {
    hide IsHit, Searchable, AllBoxesApart, Found, Ok, Less, LastOf, InSequence, NoShare;
    SearchableRanks(n, esize, es, qs);
    var i, i', j, m := SourceOfFound(n, esize, es, qs, xbuf, bs, s, t);
    HitRank(n, esize, es, qs, bs[s].isect, i, j, m);
    HitRank(n, esize, es, qs, bs[t].isect, i', j, m);
    RankOfStart(bs[s]);
    RankOfStart(bs[t]);
    assert NoShare(bs[s], bs[t]) && !Precedes(bs[t], bs[s]);
    if i == i' { SameHit(n, esize, es, qs, bs[s].isect, bs[t].isect, i, j, m); }
    NotApartFromItself(bs[s]);
    if i < i' {
      FollowsInEntry(n, esize, es, qs, xbuf, bs[s].isect, i, bs[t].isect, i', j, m);
    } else {
      FollowsInEntry(n, esize, es, qs, xbuf, bs[t].isect, i', bs[s].isect, i, j, m);
      StartsBeforeLast(bs[t]);
      LessEqLess(bs[t].isect.dstart, LastOf(bs[t]), bs[s].isect.dstart);
      assert false;
    }
  }

  /** Blocks in sequence have no element in common. */
  lemma InSequenceApart(n: nat, qs: seq<Block>)
    requires Rank(n, qs) && InSequence(n, qs)
    ensures AllBoxesApart(n, qs)
  {
    hide Less;
    forall i, j | 0 <= i < j < |qs| ensures BoxesApart(qs[i], qs[j])
    {
      forall x: Coord | InBox(x, qs[i]) ensures !InBox(x, qs[j])
      {
        if InBox(x, qs[j]) {
          PointwiseLessEq(x, Last(qs[i]));
          PointwiseLessEq(qs[j].start, x);
          LessEqLess(x, Last(qs[i]), qs[j].start);
          LessEqLess(qs[j].start, x, qs[j].start);
          LessIrrefl(qs[j].start);
        }
      }
    }
  }

  lemma RankOfStart(b: Blk)
    requires Ok(b)
    ensures |b.isect.dstart| == Rk(b)
  {
  }

  lemma NotApartFromItself(b: Blk)
    requires Ok(b)
    ensures !NoShare(b, b)
  {
    NoShareItself(b);
  }

  lemma StartsBeforeLast(b: Blk)
    requires Ok(b)
    ensures LessEq(b.isect.dstart, LastOf(b))
  {
    PointwiseLessEq(b.isect.dstart, LastOf(b));
  }

  /** A canonical request is read through a legal file type: every intersection is a group of its own, and the
      ranges are increasing and disjoint. */
  lemma CanonicalReadIsLegal(n: nat, esize: nat, es: seq<Entry>, qs: seq<Block>, xbuf: int, bs: seq<Blk>, rs: seq<seq<Piece>>)
    requires Readable(n, esize, es, qs) && InSequence(n, qs) && Found(n, esize, es, qs, xbuf, bs)
    requires AllOk(bs) && InOrder(bs) && PlanOk(Groups(bs, 0), rs)
    ensures Legal(PlanPieces(Groups(bs, 0), rs))
    ensures forall g :: 0 <= g < |Groups(bs, 0)| ==> |Groups(bs, 0)[g]| == 1
  {
    hide Searchable, AllBoxesApart, Found, Ok, InOrder, Groups, PlanPieces, Legal, InSequence, CutsReal, NoShare;
    SearchableRanks(n, esize, es, qs);
    FoundApart(n, esize, es, qs, xbuf, bs);
    FoundSources(n, esize, es, qs, xbuf, bs);
    forall s, t | 0 <= s < t < |bs| && SameSource(bs[s], bs[t])
      ensures Rk(bs[s]) == Rk(bs[t]) && |bs[t].isect.dstart| == |LastOf(bs[s])| && Less(LastOf(bs[s]), bs[t].isect.dstart)
    {
      RankOfStart(bs[t]);
      InSequenceStep(n, esize, es, qs, xbuf, bs, s, t);
    }
    StepwiseCutsReal(bs);
    PlanLegal(Groups(bs, 0), rs);
  }

  // ----- std::sort -----

  /** Position of a block in a list that is already in order. */
  function Slot(bs: seq<Blk>, b: Blk): (k: nat)
    requires AllOk(bs) && Ok(b)
    ensures k <= |bs|
    decreases |bs|
  {
    if bs == [] || Precedes(b, bs[0]) then 0 else 1 + Slot(bs[1..], b)
  }

  lemma {:induction false} SlotFits(bs: seq<Blk>, b: Blk)
    requires AllOk(bs) && Ok(b) && InOrder(bs) && Comparable(bs + [b])
    ensures forall i :: 0 <= i < Slot(bs, b) ==> !Precedes(b, bs[i])
    ensures forall i :: Slot(bs, b) <= i < |bs| ==> !Precedes(bs[i], b)
    decreases |bs|
  {
    hide Ok, Less;
    if bs != [] && !Precedes(b, bs[0]) {
      forall i, j | 0 <= i < j < |bs[1..]| ensures !Precedes(bs[1..][j], bs[1..][i]) { assert !Precedes(bs[j + 1], bs[i + 1]); }
      forall x, y | x in bs[1..] + [b] && y in bs[1..] + [b] && Base(x) == Base(y) ensures Rk(x) == Rk(y) {}
      SlotFits(bs[1..], b);
      forall i | Slot(bs, b) <= i < |bs| ensures !Precedes(bs[i], b) { assert bs[i] == bs[1..][i - 1]; }
      forall i | 0 <= i < Slot(bs, b) ensures !Precedes(b, bs[i]) { if i > 0 { assert bs[i] == bs[1..][i - 1]; } }
    } else if bs != [] {
      forall i | 0 <= i < |bs| ensures !Precedes(bs[i], b)
      {
        assert b in bs + [b] && bs[0] in bs + [b] && bs[i] in bs + [b];
        BeforeFirst(b, bs[0], bs[i], i > 0 ==> !Precedes(bs[i], bs[0]));
      }
    }
  }

  lemma BeforeFirst(b: Blk, f: Blk, x: Blk, inOrder: bool)
    requires Ok(b) && Ok(f) && Ok(x) && Precedes(b, f) && (x == f || !Precedes(x, f))
    requires (Base(b) == Base(f) ==> Rk(b) == Rk(f)) && (Base(x) == Base(f) ==> Rk(x) == Rk(f)) && (Base(x) == Base(b) ==> Rk(x) == Rk(b))
    ensures !Precedes(x, b)
  {
    hide Positive, Fits;
    if Precedes(x, b) {
      if Base(x) == Base(b) == Base(f) { LessTrans(x.isect.dstart, b.isect.dstart, f.isect.dstart); }
      if x == f { LessIrrefl(f.isect.dstart); }
      assert false;
    }
  }

  /** Intersections at the same place in the file have the same rank. */
  ghost predicate Comparable(bs: seq<Blk>)
  {
    forall x, y :: x in bs && y in bs && Base(x) == Base(y) ==> Rk(x) == Rk(y)
  }

  /** Stands for std::sort on the intersections: some permutation that is in order. */
  method SortIntersections(hs: seq<Blk>) returns (bs: seq<Blk>)
    requires AllOk(hs) && Comparable(hs)
    ensures AllOk(bs) && InOrder(bs) && multiset(bs) == multiset(hs)
  {
    hide Ok, Precedes;
    bs := [];
    var i := 0;
    while i < |hs|
      invariant 0 <= i <= |hs| && AllOk(bs) && InOrder(bs) && multiset(bs) == multiset(hs[..i])
    {
      SubsetComparable(hs, i, bs);
      SlotFits(bs, hs[i]);
      var k := Slot(bs, hs[i]);
      InsertInOrder(bs, hs[i], k);
      assert hs[..i + 1] == hs[..i] + [hs[i]];
      bs := bs[..k] + [hs[i]] + bs[k..];
      i := i + 1;
    }
    assert hs[..i] == hs;
  }

  lemma SubsetComparable(hs: seq<Blk>, i: nat, bs: seq<Blk>)
    requires Comparable(hs) && i < |hs| && multiset(bs) == multiset(hs[..i])
    ensures Comparable(bs + [hs[i]])
  {
    forall x | x in bs + [hs[i]] ensures x in hs
    {
      if x in bs { assert x in multiset(hs[..i]); }
    }
  }

  lemma InsertInOrder(bs: seq<Blk>, b: Blk, k: nat)
    requires AllOk(bs) && Ok(b) && InOrder(bs) && k <= |bs|
    requires (forall i :: 0 <= i < k ==> !Precedes(b, bs[i])) && forall i :: k <= i < |bs| ==> !Precedes(bs[i], b)
    ensures AllOk(bs[..k] + [b] + bs[k..]) && InOrder(bs[..k] + [b] + bs[k..])
    ensures multiset(bs[..k] + [b] + bs[k..]) == multiset(bs) + multiset{b}
  {
    hide Ok, Precedes;
    var t := bs[..k] + [b] + bs[k..];
    assert bs == bs[..k] + bs[k..];
    forall i, j | 0 <= i < j < |t| ensures !Precedes(t[j], t[i])
    {
      if i < k { assert t[i] == bs[i]; } else if i > k { assert t[i] == bs[i - 1]; }
      if j < k { assert t[j] == bs[j]; } else if j > k { assert t[j] == bs[j - 1]; }
    }
  }
}
