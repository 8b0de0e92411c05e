/** From the index to the user's buffer: a read returns, element by element, the data of the covering entry
    block with the greatest file address, and what the buffer held (the fill value) elsewhere. */
module ReadPath {
  import opened Grid
  import opened Bytes
  import opened MetaCodec
  import opened EntryCodec
  import opened IndexSearch
  import opened SortOffsets
  import opened Trim
  import opened ReadPlan
  import opened ReadGroups
  import opened ReadTypes
  import opened ReadLegal
  import opened ReadCuts
  import opened ReadWins

  // ----- entries and requests -----

  function SelAt(es: seq<Entry>, j: nat, m: nat): Sel
    requires j < |es| && m < |es[j].sels|
  {
    es[j].sels[m]
  }

  /** File address of an entry block's data. */
  function SelBase(es: seq<Entry>, j: nat, m: nat): int
    requires j < |es| && m < |es[j].sels|
  {
    es[j].hdr.foff + es[j].sels[m].doff
  }

  predicate IsSel(es: seq<Entry>, j: nat, m: nat) { j < |es| && m < |es[j].sels| }

  predicate Reaches(es: seq<Entry>, esize: nat, j: nat, m: nat, j': nat, m': nat)
    requires IsSel(es, j, m) && IsSel(es, j', m')
  {
    SelBase(es, j, m) + Prod(SelAt(es, j, m).count) * esize <= SelBase(es, j', m')
  }

  /** The data of different entry blocks do not overlap in the file. */
  ghost predicate DataApart(es: seq<Entry>, esize: nat)
  {
    forall j: nat, m: nat, j': nat, m': nat :: IsSel(es, j, m) && IsSel(es, j', m') && (j != j' || m != m') ==>
      Reaches(es, esize, j, m, j', m') || Reaches(es, esize, j', m', j, m)
  }

  ghost predicate BoxesApart(a: Block, b: Block)
    requires |a.start| == |a.count| && |b.start| == |b.count|
  {
    forall x: Coord :: !(InBox(x, a) && InBox(x, b))
  }

  /** Entries and request blocks that the search and the planner can work with; blocks may overlap. */
  ghost predicate Searchable(n: nat, esize: nat, es: seq<Entry>, qs: seq<Block>)
  {
    esize > 0 && Rank(n, qs) && Ranked(n, es) && DataApart(es, esize) &&
    forall j: nat, m: nat :: IsSel(es, j, m) ==> Positive(SelAt(es, j, m).count)
  }

  ghost predicate AllBoxesApart(n: nat, qs: seq<Block>)
    requires Rank(n, qs)
  {
    forall i, j :: 0 <= i < j < |qs| ==> BoxesApart(qs[i], qs[j])
  }

  ghost predicate Readable(n: nat, esize: nat, es: seq<Entry>, qs: seq<Block>)
  {
    Searchable(n, esize, es, qs) && AllBoxesApart(n, qs)
  }

  /** Offset of request block i in the request's buffer. */
  function Soff(qs: seq<Block>, esize: nat, i: nat): nat
    requires i <= |qs|
  {
    SelSize(qs[..i]) * esize
  }

  /** h is the intersection of entry block (j, m) with request block i. */
  ghost predicate IsHit(n: nat, esize: nat, es: seq<Entry>, qs: seq<Block>, h: Isect, i: nat, j: nat, m: nat)
    requires Rank(n, qs) && Ranked(n, es)
  {
    i < |qs| && IsSel(es, j, m) && RankedSels(n, es[j].sels) && Meets(SelBlock(SelAt(es, j, m)), qs[i]) &&
    h == MakeIsect(es[j].hdr, SelAt(es, j, m), qs[i], Soff(qs, esize, i), Common(SelBlock(SelAt(es, j, m)), qs[i]))
  }

  function AsBlk(h: Isect, esize: nat, xbuf: int): Blk { Blk(h, esize, xbuf) }

  function AsBlks(hs: seq<Isect>, esize: nat, xbuf: int): (bs: seq<Blk>)
    ensures |bs| == |hs|
  {
    seq(|hs|, i requires 0 <= i < |hs| => AsBlk(hs[i], esize, xbuf))
  }

  // ----- one intersection -----

  lemma HitOk(n: nat, esize: nat, es: seq<Entry>, qs: seq<Block>, xbuf: int, h: Isect, i: nat, j: nat, m: nat)
    requires Searchable(n, esize, es, qs) && IsHit(n, esize, es, qs, h, i, j, m)
    ensures Ok(AsBlk(h, esize, xbuf)) && Base(AsBlk(h, esize, xbuf)) == SelBase(es, j, m)
    ensures h.dsize == SelAt(es, j, m).count && h.foff == es[j].hdr.foff && h.doff == SelAt(es, j, m).doff
  {
    hide DataApart, Meets;
  }

  /** The elements of an intersection: file and buffer address of the element at coordinate x. */
  lemma HitAddresses(n: nat, esize: nat, es: seq<Entry>, qs: seq<Block>, xbuf: int, h: Isect, i: nat, j: nat, m: nat, x: Coord, u: Coord)
    requires Searchable(n, esize, es, qs) && IsHit(n, esize, es, qs, h, i, j, m)
    requires Ok(AsBlk(h, esize, xbuf)) && |x| == n && |u| == n
    requires var c := Common(SelBlock(SelAt(es, j, m)), qs[i]);
             x == Add(c.start, u) && InBounds(c.count, u)
    ensures InBox(x, SelBlock(SelAt(es, j, m))) && InBox(x, qs[i])
    ensures InBounds(h.count, u)
    ensures FileAt(AsBlk(h, esize, xbuf), u) == SelBase(es, j, m) + Linear(SelAt(es, j, m).count, Sub(x, SelAt(es, j, m).start)) * esize
    ensures MemAt(AsBlk(h, esize, xbuf), u) == xbuf + Soff(qs, esize, i) + Linear(qs[i].count, Sub(x, qs[i].start)) * esize
  {
    hide DataApart, Meets, Soff, Linear;
    var s, q := SelAt(es, j, m), qs[i];
    var c := Common(SelBlock(s), q);
    forall k | 0 <= k < n
      ensures s.start[k] <= x[k] < s.start[k] + s.count[k] && q.start[k] <= x[k] < q.start[k] + q.count[k]
    {
      assert x[k] == c.start[k] + u[k];
    }
    assert Add(h.dstart, u) == Sub(x, s.start);
    assert Add(h.mstart, u) == Sub(x, q.start);
  }

  // ----- addresses of the buffer -----

  function BufferAt(qs: seq<Block>, esize: nat, xbuf: int, i: nat, x: Coord, k: nat): int
    requires i < |qs| && |qs[i].start| == |qs[i].count| && InBox(x, qs[i])
  {
    xbuf + Soff(qs, esize, i) + Linear(qs[i].count, Sub(x, qs[i].start)) * esize + k
  }

  lemma {:induction false} SizeGrows(qs: seq<Block>, i: nat, j: nat)
    requires i < j <= |qs|
    ensures SelSize(qs[..i]) + Prod(qs[i].count) <= SelSize(qs[..j])
    decreases j
  {
    SizeSnoc(qs, j - 1);
    if i < j - 1 { SizeGrows(qs, i, j - 1); }
  }

  lemma {:induction false} SizeSnoc(qs: seq<Block>, k: nat)
    requires k < |qs|
    ensures SelSize(qs[..k + 1]) == SelSize(qs[..k]) + Prod(qs[k].count)
    decreases k
  {
    if k == 0 {
      assert qs[..1][1..] == [] && qs[..0] == [];
    } else {
      SizeSnoc(qs[1..], k - 1);
      assert qs[..k + 1][1..] == qs[1..][..k] && qs[..k][1..] == qs[1..][..k - 1];
    }
  }

  lemma SameElement(e: nat, e': nat, k: nat, k': nat, esize: nat)
    requires k < esize && k' < esize && e * esize + k == e' * esize + k'
    ensures e == e' && k == k'
  {
    if e < e' { MulGap(e, e', esize, k, k'); }
    if e' < e { MulGap(e', e, esize, k', k); }
  }

  /** Every byte of the buffer belongs to one element of one request block. */
  lemma BufferInjective(n: nat, qs: seq<Block>, esize: nat, xbuf: int, i: nat, x: Coord, k: nat, i': nat, x': Coord, k': nat)
    requires Rank(n, qs) && i < |qs| && i' < |qs| && InBox(x, qs[i]) && InBox(x', qs[i']) && k < esize && k' < esize
    requires BufferAt(qs, esize, xbuf, i, x, k) == BufferAt(qs, esize, xbuf, i', x', k')
    ensures i == i' && x == x' && k == k'
  {
    hide Linear;
    var l, l' := Linear(qs[i].count, Sub(x, qs[i].start)), Linear(qs[i'].count, Sub(x', qs[i'].start));
    SubInBounds(qs[i], x);
    SubInBounds(qs[i'], x');
    LinearBound(qs[i].count, Sub(x, qs[i].start));
    LinearBound(qs[i'].count, Sub(x', qs[i'].start));
    Distribute(SelSize(qs[..i]), l, esize);
    Distribute(SelSize(qs[..i']), l', esize);
    SameElement(SelSize(qs[..i]) + l, SelSize(qs[..i']) + l', k, k', esize);
    if i < i' { SizeGrows(qs, i, i'); }
    if i' < i { SizeGrows(qs, i', i); }
    InBoundsRadix(qs[i].count, Sub(x, qs[i].start));
    if i == i' {
      InBoundsRadix(qs[i].count, Sub(x', qs[i].start));
      LinearOrder(qs[i].count, Sub(x, qs[i].start), Sub(x', qs[i].start));
    }
  }

  // ----- members of the search result -----

  lemma {:induction false} EntryMember(n: nat, esize: nat, es: seq<Entry>, qs: seq<Block>, i: nat, j: nat, m: nat, h: Isect)
    requires Rank(n, qs) && Ranked(n, es) && i < |qs| && j < |es| && m <= |es[j].sels| && RankedSels(n, es[j].sels)
    ensures RankedSels(n, es[j].sels[m..])
    ensures h in EntryHits(es[j].hdr, es[j].sels[m..], qs[i], Soff(qs, esize, i)) <==> exists k :: m <= k < |es[j].sels| && IsHit(n, esize, es, qs, h, i, j, k)
    decreases |es[j].sels| - m
  {
    hide Meets, MakeIsect, Soff;
    var sels := es[j].sels;
    if m < |sels| {
      EntryMember(n, esize, es, qs, i, j, m + 1, h);
      assert sels[m..][1..] == sels[m + 1..];
      assert h in Hit(es[j].hdr, sels[m], qs[i], Soff(qs, esize, i)) <==> IsHit(n, esize, es, qs, h, i, j, m);
    }
  }

  lemma RankedEntry(n: nat, es: seq<Entry>, j: nat)
    requires Ranked(n, es) && j < |es|
    ensures RankedSels(n, es[j].sels) && Ranked(n, es[j..]) && Ranked(n, es[j + 1..]) && es[j..][1..] == es[j + 1..]
  {
  }

  lemma {:induction false} BlockMember(n: nat, esize: nat, es: seq<Entry>, qs: seq<Block>, i: nat, j: nat, h: Isect)
    requires Rank(n, qs) && Ranked(n, es) && i < |qs| && j <= |es|
    ensures Ranked(n, es[j..])
    ensures h in BlockHits(es[j..], qs[i], Soff(qs, esize, i)) <==> exists t, m :: j <= t < |es| && m >= 0 && IsHit(n, esize, es, qs, h, i, t, m)
    decreases |es| - j
  {
    hide Meets, MakeIsect, Soff, EntryHits;
    if j < |es| {
      RankedEntry(n, es, j);
      BlockMember(n, esize, es, qs, i, j + 1, h);
      EntryMember(n, esize, es, qs, i, j, 0, h);
      assert es[j].sels[0..] == es[j].sels;
    }
  }

  /** The search result from request block i on. */
  function SearchFrom(n: nat, esize: nat, es: seq<Entry>, qs: seq<Block>, i: nat): seq<Isect>
    requires Rank(n, qs) && Ranked(n, es) && i <= |qs|
  {
    SearchList(n, esize, es, qs[i..], Soff(qs, esize, i))
  }

  lemma SearchFromCons(n: nat, esize: nat, es: seq<Entry>, qs: seq<Block>, i: nat)
    requires Rank(n, qs) && Ranked(n, es) && i < |qs|
    ensures SearchFrom(n, esize, es, qs, i) == BlockHits(es, qs[i], Soff(qs, esize, i)) + SearchFrom(n, esize, es, qs, i + 1)
  {
    hide BlockHits;
    SizeSnoc(qs, i);
    Distribute(SelSize(qs[..i]), Prod(qs[i].count), esize);
    SearchUnfold(n, esize, es, qs, i, Soff(qs, esize, i));
  }

  lemma {:induction false} SearchMember(n: nat, esize: nat, es: seq<Entry>, qs: seq<Block>, i: nat, h: Isect)
    requires Rank(n, qs) && Ranked(n, es) && i <= |qs|
    ensures h in SearchFrom(n, esize, es, qs, i) <==> exists t, j, m :: i <= t < |qs| && j >= 0 && m >= 0 && IsHit(n, esize, es, qs, h, t, j, m)
    decreases |qs| - i
  {
    hide Meets, MakeIsect, Soff, BlockHits, SearchFrom;
    if i < |qs| {
      SearchFromCons(n, esize, es, qs, i);
      SearchMember(n, esize, es, qs, i + 1, h);
      BlockMember(n, esize, es, qs, i, 0, h);
      assert es[0..] == es;
    } else {
      NoSearch(n, esize, es, qs);
    }
  }

  lemma NoSearch(n: nat, esize: nat, es: seq<Entry>, qs: seq<Block>)
    requires Rank(n, qs) && Ranked(n, es)
    ensures SearchFrom(n, esize, es, qs, |qs|) == []
  {
  }

  // ----- intersections share nothing -----

  lemma FileWithin(n: nat, esize: nat, es: seq<Entry>, qs: seq<Block>, xbuf: int, h: Isect, i: nat, j: nat, m: nat, u: Coord)
    requires Searchable(n, esize, es, qs) && IsHit(n, esize, es, qs, h, i, j, m)
    requires Ok(AsBlk(h, esize, xbuf)) && InBounds(h.count, u)
    ensures var x := Add(Common(SelBlock(SelAt(es, j, m)), qs[i]).start, u);
            InBox(x, SelBlock(SelAt(es, j, m))) && InBox(x, qs[i]) &&
            FileAt(AsBlk(h, esize, xbuf), u) == SelBase(es, j, m) + Linear(SelAt(es, j, m).count, Sub(x, SelAt(es, j, m).start)) * esize &&
            MemAt(AsBlk(h, esize, xbuf), u) == xbuf + Soff(qs, esize, i) + Linear(qs[i].count, Sub(x, qs[i].start)) * esize &&
            FileAt(AsBlk(h, esize, xbuf), u) + esize <= SelBase(es, j, m) + Prod(SelAt(es, j, m).count) * esize
    ensures SelBase(es, j, m) <= FileAt(AsBlk(h, esize, xbuf), u)
  {
    hide DataApart, Meets, Soff, Linear, Prod, FileAt, MemAt;
    var s := SelAt(es, j, m);
    var x := Add(Common(SelBlock(s), qs[i]).start, u);
    HitAddresses(n, esize, es, qs, xbuf, h, i, j, m, x, u);
    SubInBounds(SelBlock(s), x);
    LinearBound(s.count, Sub(x, s.start));
    StepMul(Linear(s.count, Sub(x, s.start)), Prod(s.count), esize);
  }

  lemma HitsShareNothing(n: nat, esize: nat, es: seq<Entry>, qs: seq<Block>, xbuf: int, h: Isect, i: nat, j: nat, m: nat, h': Isect, i': nat, j': nat, m': nat)
    requires Readable(n, esize, es, qs) && IsHit(n, esize, es, qs, h, i, j, m) && IsHit(n, esize, es, qs, h', i', j', m')
    requires i != i' || j != j' || m != m'
    ensures Ok(AsBlk(h, esize, xbuf)) && Ok(AsBlk(h', esize, xbuf)) && NoShare(AsBlk(h, esize, xbuf), AsBlk(h', esize, xbuf))
  {
    hide Meets, Soff, Linear, Prod, FileAt, MemAt, IsHit, AllBoxesApart, Ok;
    HitOk(n, esize, es, qs, xbuf, h, i, j, m);
    HitOk(n, esize, es, qs, xbuf, h', i', j', m');
    var b, b' := AsBlk(h, esize, xbuf), AsBlk(h', esize, xbuf);
    forall u: Coord, v: Coord | InBounds(h.count, u) && InBounds(h'.count, v) ensures ElementsApart(b, u, b', v)
    {
      HitRank(n, esize, es, qs, h, i, j, m);
      HitRank(n, esize, es, qs, h', i', j', m');
      FileWithin(n, esize, es, qs, xbuf, h, i, j, m, u);
      FileWithin(n, esize, es, qs, xbuf, h', i', j', m', v);
      if j == j' && m == m' {
        SameSelApart(n, esize, es, qs, i, i', j, m, Add(Common(SelBlock(SelAt(es, j, m)), qs[i]).start, u),
                     Add(Common(SelBlock(SelAt(es, j, m)), qs[i']).start, v));
      } else {
        assert Reaches(es, esize, j, m, j', m') || Reaches(es, esize, j', m', j, m);
      }
    }
  }

  lemma HitRank(n: nat, esize: nat, es: seq<Entry>, qs: seq<Block>, h: Isect, i: nat, j: nat, m: nat)
    requires Rank(n, qs) && Ranked(n, es) && IsHit(n, esize, es, qs, h, i, j, m)
    ensures i < |qs| && |qs[i].start| == |qs[i].count| == n && IsSel(es, j, m) && |h.count| == n
    ensures |SelAt(es, j, m).start| == |SelAt(es, j, m).count| == n && Meets(SelBlock(SelAt(es, j, m)), qs[i])
  {
    hide Meets;
  }

  /** Elements of one entry block that two request blocks ask for are different elements. */
  lemma SameSelApart(n: nat, esize: nat, es: seq<Entry>, qs: seq<Block>, i: nat, i': nat, j: nat, m: nat, x: Coord, y: Coord)
    requires Readable(n, esize, es, qs) && IsSel(es, j, m) && i < |qs| && i' < |qs| && i != i'
    requires InBoxOk(n, SelBlock(SelAt(es, j, m)), x) && InBoxOk(n, SelBlock(SelAt(es, j, m)), y) && InBoxOk(n, qs[i], x) && InBoxOk(n, qs[i'], y)
    ensures var s := SelAt(es, j, m);
            var a, b := Linear(s.count, Sub(x, s.start)) * esize, Linear(s.count, Sub(y, s.start)) * esize;
            a + esize <= b || b + esize <= a
  {
    hide Linear, Searchable;
    SearchableRanks(n, esize, es, qs);
    if i < i' { assert BoxesApart(qs[i], qs[i']); } else { assert BoxesApart(qs[i'], qs[i]); }
    assert x != y;
    var s := SelAt(es, j, m);
    SubInBounds(SelBlock(s), x);
    SubInBounds(SelBlock(s), y);
    InBoundsRadix(s.count, Sub(x, s.start));
    InBoundsRadix(s.count, Sub(y, s.start));
    LinearOrder(s.count, Sub(x, s.start), Sub(y, s.start));
    var a, b := Linear(s.count, Sub(x, s.start)), Linear(s.count, Sub(y, s.start));
    assert Sub(x, s.start) != Sub(y, s.start);
    if a < b { StepMul(a, b, esize); } else { StepMul(b, a, esize); }
  }

  predicate InBoxOk(n: nat, b: Block, x: Coord) { |b.start| == |b.count| == n && InBox(x, b) }

  // ----- the search result shares nothing -----

  lemma AsBlksConcat(a: seq<Isect>, b: seq<Isect>, esize: nat, xbuf: int)
    ensures AsBlks(a + b, esize, xbuf) == AsBlks(a, esize, xbuf) + AsBlks(b, esize, xbuf)
  {
  }

  lemma AsBlksMember(hs: seq<Isect>, esize: nat, xbuf: int, b: Blk)
    ensures b in AsBlks(hs, esize, xbuf) <==> b.esize == esize && b.xbuf == xbuf && b.isect in hs
  {
    if b.esize == esize && b.xbuf == xbuf && b.isect in hs {
      var i :| 0 <= i < |hs| && hs[i] == b.isect;
      assert AsBlks(hs, esize, xbuf)[i] == b;
    }
  }

  ghost predicate NoRepeats(hs: seq<Isect>) { forall i, j :: 0 <= i < j < |hs| ==> hs[i] != hs[j] }

  lemma NoRepeatsConcat(a: seq<Isect>, b: seq<Isect>)
    requires NoRepeats(a) && NoRepeats(b) && forall x, y :: x in a && y in b ==> x != y
    ensures NoRepeats(a + b)
  {
    var s := a + b;
    forall i, j | 0 <= i < j < |s| ensures s[i] != s[j]
    {
      if i < |a| <= j { assert s[i] in a && s[j] in b; }
    }
  }

  /** Different places give different intersections. */
  lemma HitsDiffer(n: nat, esize: nat, es: seq<Entry>, qs: seq<Block>, h: Isect, i: nat, j: nat, m: nat, i': nat, j': nat, m': nat)
    requires Searchable(n, esize, es, qs) && IsHit(n, esize, es, qs, h, i, j, m) && IsHit(n, esize, es, qs, h, i', j', m')
    ensures i == i' && j == j' && m == m'
  {
    hide DataApart, Soff, Common, Prod;
    assert SelBase(es, j, m) == SelBase(es, j', m');
    SameBaseSameSel(n, esize, es, qs, j, m, j', m');
    if i < i' { SoffGrows(n, qs, esize, SelBlock(SelAt(es, j, m)), i, i'); }
    if i' < i { SoffGrows(n, qs, esize, SelBlock(SelAt(es, j, m)), i', i); }
  }

  lemma SoffGrows(n: nat, qs: seq<Block>, esize: nat, b: Block, i: nat, i': nat)
    requires Rank(n, qs) && esize > 0 && i < i' <= |qs| && |b.start| == |b.count| == n && Meets(b, qs[i])
    ensures Soff(qs, esize, i) < Soff(qs, esize, i')
  {
    hide Prod;
    forall k | 0 <= k < n ensures qs[i].count[k] > 0 { assert MeetAt(b, qs[i], k); }
    ProdPositive(qs[i].count);
    SizeGrows(qs, i, i');
    MulMono(SelSize(qs[..i]) + 1, SelSize(qs[..i']), esize);
    Distribute(SelSize(qs[..i]), 1, esize);
  }

  lemma {:induction false} EntryNoRepeats(n: nat, esize: nat, es: seq<Entry>, qs: seq<Block>, i: nat, j: nat, m: nat)
    requires Searchable(n, esize, es, qs) && i < |qs| && j < |es| && m <= |es[j].sels| && RankedSels(n, es[j].sels)
    ensures RankedSels(n, es[j].sels[m..])
    ensures NoRepeats(EntryHits(es[j].hdr, es[j].sels[m..], qs[i], Soff(qs, esize, i)))
    decreases |es[j].sels| - m
  {
    hide Meets, MakeIsect, Soff, IsHit, DataApart;
    var sels := es[j].sels;
    if m < |sels| {
      EntryNoRepeats(n, esize, es, qs, i, j, m + 1);
      assert sels[m..][1..] == sels[m + 1..];
      var here, rest := Hit(es[j].hdr, sels[m], qs[i], Soff(qs, esize, i)), EntryHits(es[j].hdr, sels[m + 1..], qs[i], Soff(qs, esize, i));
      forall x, y | x in here && y in rest ensures x != y
      {
        EntryMember(n, esize, es, qs, i, j, m + 1, y);
        HereIsHit(n, esize, es, qs, i, j, m, x);
        var t :| m + 1 <= t < |sels| && IsHit(n, esize, es, qs, y, i, j, t);
        if x == y { HitsDiffer(n, esize, es, qs, x, i, j, m, i, j, t); }
      }
      NoRepeatsConcat(here, rest);
    }
  }

  lemma HereIsHit(n: nat, esize: nat, es: seq<Entry>, qs: seq<Block>, i: nat, j: nat, m: nat, h: Isect)
    requires Rank(n, qs) && Ranked(n, es) && i < |qs| && IsSel(es, j, m) && RankedSels(n, es[j].sels)
    requires h in Hit(es[j].hdr, es[j].sels[m], qs[i], Soff(qs, esize, i))
    ensures IsHit(n, esize, es, qs, h, i, j, m)
  {
    hide Meets, MakeIsect, Soff;
  }

  lemma SearchableRanks(n: nat, esize: nat, es: seq<Entry>, qs: seq<Block>)
    requires Searchable(n, esize, es, qs)
    ensures Rank(n, qs) && Ranked(n, es) && esize > 0
  {
  }

  lemma ReadableRanks(n: nat, esize: nat, es: seq<Entry>, qs: seq<Block>)
    requires Readable(n, esize, es, qs)
    ensures Rank(n, qs) && Ranked(n, es) && esize > 0
  {
  }

  lemma {:induction false} BlockNoRepeats(n: nat, esize: nat, es: seq<Entry>, qs: seq<Block>, i: nat, j: nat)
    requires Searchable(n, esize, es, qs) && i < |qs| && j <= |es|
    ensures Ranked(n, es[j..]) && NoRepeats(BlockHits(es[j..], qs[i], Soff(qs, esize, i)))
    decreases |es| - j
  {
    hide Meets, MakeIsect, Soff, IsHit, DataApart, EntryHits;
    if j < |es| {
      RankedEntry(n, es, j);
      BlockNoRepeats(n, esize, es, qs, i, j + 1);
      EntryNoRepeats(n, esize, es, qs, i, j, 0);
      assert es[j].sels[0..] == es[j].sels;
      var here, rest := EntryHits(es[j].hdr, es[j].sels, qs[i], Soff(qs, esize, i)), BlockHits(es[j + 1..], qs[i], Soff(qs, esize, i));
      forall x, y | x in here && y in rest ensures x != y
      {
        EntryMember(n, esize, es, qs, i, j, 0, x);
        BlockMember(n, esize, es, qs, i, j + 1, y);
        var m :| 0 <= m < |es[j].sels| && IsHit(n, esize, es, qs, x, i, j, m);
        var t, m' :| j + 1 <= t < |es| && m' >= 0 && IsHit(n, esize, es, qs, y, i, t, m');
        if x == y { HitsDiffer(n, esize, es, qs, x, i, j, m, i, t, m'); }
      }
      NoRepeatsConcat(here, rest);
    }
  }

  lemma {:induction false} SearchNoRepeats(n: nat, esize: nat, es: seq<Entry>, qs: seq<Block>, i: nat)
    requires Searchable(n, esize, es, qs) && i <= |qs|
    ensures NoRepeats(SearchFrom(n, esize, es, qs, i))
    decreases |qs| - i
  {
    hide Meets, MakeIsect, Soff, IsHit, DataApart, BlockHits, SearchFrom;
    if i == |qs| {
      NoSearch(n, esize, es, qs);
    } else {
      SearchFromCons(n, esize, es, qs, i);
      SearchNoRepeats(n, esize, es, qs, i + 1);
      BlockNoRepeats(n, esize, es, qs, i, 0);
      assert es[0..] == es;
      var here, rest := BlockHits(es, qs[i], Soff(qs, esize, i)), SearchFrom(n, esize, es, qs, i + 1);
      forall x, y | x in here && y in rest ensures x != y
      {
        BlockMember(n, esize, es, qs, i, 0, x);
        SearchMember(n, esize, es, qs, i + 1, y);
        var j, m :| 0 <= j < |es| && m >= 0 && IsHit(n, esize, es, qs, x, i, j, m);
        var t, j', m' :| i + 1 <= t < |qs| && j' >= 0 && m' >= 0 && IsHit(n, esize, es, qs, y, t, j', m');
        if x == y { HitsDiffer(n, esize, es, qs, x, i, j, m, t, j', m'); }
      }
      NoRepeatsConcat(here, rest);
    }
  }

  // ----- permutations -----

  lemma NoShareItself(b: Blk)
    requires Ok(b)
    ensures !NoShare(b, b)
  {
    hide FileAt;
    assert !ElementsApart(b, ZeroU(b), b, ZeroU(b));
  }

  lemma {:induction false} OnceOnly(s: seq<Blk>, i: nat)
    requires (forall k, l :: 0 <= k < l < |s| ==> s[k] != s[l]) && i < |s|
    ensures multiset(s)[s[i]] == 1
    decreases |s|
  {
    assert s == [s[0]] + s[1..];
    if i == 0 {
      forall j | 0 <= j < |s[1..]| ensures s[1..][j] != s[0] { assert s[1..][j] == s[j + 1]; }
      assert s[0] !in s[1..];
    } else {
      OnceOnly(s[1..], i - 1);
    }
  }

  lemma TwiceIn(s: seq<Blk>, i: nat, j: nat)
    requires i < j < |s| && s[i] == s[j]
    ensures multiset(s)[s[i]] >= 2
  {
    assert s == s[..i] + [s[i]] + s[i + 1..j] + [s[j]] + s[j + 1..];
  }

  lemma PermutedNoRepeats(s: seq<Blk>, t: seq<Blk>)
    requires (forall k, l :: 0 <= k < l < |s| ==> s[k] != s[l]) && multiset(t) == multiset(s)
    ensures forall k, l :: 0 <= k < l < |t| ==> t[k] != t[l]
  {
    forall k, l | 0 <= k < l < |t| ensures t[k] != t[l]
    {
      assert t[k] in multiset(t);
      var i :| 0 <= i < |s| && s[i] == t[k];
      OnceOnly(s, i);
      if t[k] == t[l] { TwiceIn(t, k, l); }
    }
  }

  // ----- last writer wins -----

  ghost predicate CoverAt(es: seq<Entry>, j: nat, m: nat, x: Coord)
  {
    IsSel(es, j, m) && |SelAt(es, j, m).start| == |SelAt(es, j, m).count| && InBox(x, SelBlock(SelAt(es, j, m)))
  }

  /** Where the entry block's data for coordinate x are in the file. */
  function DataAt(es: seq<Entry>, esize: nat, j: nat, m: nat, x: Coord): int
    requires CoverAt(es, j, m, x)
  {
    SelBase(es, j, m) + Linear(SelAt(es, j, m).count, Sub(x, SelAt(es, j, m).start)) * esize
  }

  /** Of the entry blocks that cover x, (j, m) has its data furthest on in the file. */
  ghost predicate Furthest(es: seq<Entry>, j: nat, m: nat, x: Coord)
  {
    CoverAt(es, j, m, x) && forall j': nat, m': nat :: CoverAt(es, j', m', x) ==> SelBase(es, j', m') <= SelBase(es, j, m)
  }

  /** The intersection of a covering entry block brings the byte of x to its place in the buffer. */
  lemma CoverBrings(n: nat, esize: nat, es: seq<Entry>, qs: seq<Block>, xbuf: int, i: nat, x: Coord, k: nat, j: nat, m: nat) returns (h: Isect)
    requires Searchable(n, esize, es, qs) && i < |qs| && InBoxOk(n, qs[i], x) && k < esize && CoverAt(es, j, m, x)
    ensures IsHit(n, esize, es, qs, h, i, j, m) && Ok(AsBlk(h, esize, xbuf))
    ensures Brings(AsBlk(h, esize, xbuf), BufferAt(qs, esize, xbuf, i, x, k), DataAt(es, esize, j, m, x) + k)
  {
    hide DataApart, Meets, Soff, Linear, FileAt, MemAt;
    var s := SelAt(es, j, m);
    CommonIsIntersection(SelBlock(s), qs[i], x);
    var c := Common(SelBlock(s), qs[i]);
    h := MakeIsect(es[j].hdr, s, qs[i], Soff(qs, esize, i), c);
    HitOk(n, esize, es, qs, xbuf, h, i, j, m);
    var u := Sub(x, c.start);
    SubInBounds(c, x);
    assert x == Add(c.start, u);
    HitAddresses(n, esize, es, qs, xbuf, h, i, j, m, x, u);
    assert ByteAt(AsBlk(h, esize, xbuf), BufferAt(qs, esize, xbuf, i, x, k), DataAt(es, esize, j, m, x) + k, u, k);
  }

  /** Whatever an intersection brings to that place is the byte of x. */
  lemma BringsCover(n: nat, esize: nat, es: seq<Entry>, qs: seq<Block>, xbuf: int, i: nat, x: Coord, k: nat, h: Isect, i': nat, j: nat, m: nat, f: int)
    requires Searchable(n, esize, es, qs) && i < |qs| && InBoxOk(n, qs[i], x) && k < esize && IsHit(n, esize, es, qs, h, i', j, m)
    requires Ok(AsBlk(h, esize, xbuf)) && Brings(AsBlk(h, esize, xbuf), BufferAt(qs, esize, xbuf, i, x, k), f)
    ensures i == i' && CoverAt(es, j, m, x) && f == DataAt(es, esize, j, m, x) + k
  {
    hide DataApart, Meets, Linear, FileAt, MemAt, Soff, IsHit;
    var a := BufferAt(qs, esize, xbuf, i, x, k);
    var u: Coord, k': nat :| ByteAt(AsBlk(h, esize, xbuf), a, f, u, k');
    HitRank(n, esize, es, qs, h, i', j, m);
    FileWithin(n, esize, es, qs, xbuf, h, i', j, m, u);
    var y := Add(Common(SelBlock(SelAt(es, j, m)), qs[i']).start, u);
    assert BufferAt(qs, esize, xbuf, i', y, k') == a;
    BufferInjective(n, qs, esize, xbuf, i, x, k, i', y, k');
  }

  /** bs is the search result in the order in which the planner sorted it. */
  ghost predicate Found(n: nat, esize: nat, es: seq<Entry>, qs: seq<Block>, xbuf: int, bs: seq<Blk>)
    requires Rank(n, qs) && Ranked(n, es)
  {
    multiset(bs) == multiset(AsBlks(SearchList(n, esize, es, qs, 0), esize, xbuf))
  }

  lemma FoundMember(n: nat, esize: nat, es: seq<Entry>, qs: seq<Block>, xbuf: int, bs: seq<Blk>, b: Blk)
    requires Searchable(n, esize, es, qs) && Found(n, esize, es, qs, xbuf, bs)
    ensures b in bs <==> b.esize == esize && b.xbuf == xbuf && exists i, j, m :: i >= 0 && j >= 0 && m >= 0 && IsHit(n, esize, es, qs, b.isect, i, j, m)
  {
    hide IsHit, DataApart;
    var hs := SearchList(n, esize, es, qs, 0);
    assert qs[0..] == qs && qs[..0] == [];
    assert SearchFrom(n, esize, es, qs, 0) == hs;
    SearchMember(n, esize, es, qs, 0, b.isect);
    AsBlksMember(hs, esize, xbuf, b);
    assert b in bs <==> b in multiset(bs);
    assert b in AsBlks(hs, esize, xbuf) <==> b in multiset(AsBlks(hs, esize, xbuf));
    if b.esize == esize && b.xbuf == xbuf && exists i, j, m :: i >= 0 && j >= 0 && m >= 0 && IsHit(n, esize, es, qs, b.isect, i, j, m) {
      var i, j, m :| i >= 0 && j >= 0 && m >= 0 && IsHit(n, esize, es, qs, b.isect, i, j, m);
      HitRank(n, esize, es, qs, b.isect, i, j, m);
    }
  }

  lemma FoundSource(n: nat, esize: nat, es: seq<Entry>, qs: seq<Block>, xbuf: int, bs: seq<Blk>, t: nat) returns (i: nat, j: nat, m: nat)
    requires Searchable(n, esize, es, qs) && Found(n, esize, es, qs, xbuf, bs) && t < |bs|
    ensures IsHit(n, esize, es, qs, bs[t].isect, i, j, m) && bs[t] == AsBlk(bs[t].isect, esize, xbuf)
    ensures Ok(bs[t]) && Base(bs[t]) == SelBase(es, j, m)
  {
    hide IsHit, DataApart, Found;
    FoundMember(n, esize, es, qs, xbuf, bs, bs[t]);
    var i', j', m' :| i' >= 0 && j' >= 0 && m' >= 0 && IsHit(n, esize, es, qs, bs[t].isect, i', j', m');
    i, j, m := i', j', m';
    HitOk(n, esize, es, qs, xbuf, bs[t].isect, i, j, m);
  }

  /** No intersection is found twice. */
  lemma FoundOnce(n: nat, esize: nat, es: seq<Entry>, qs: seq<Block>, xbuf: int, bs: seq<Blk>)
    requires Searchable(n, esize, es, qs) && Found(n, esize, es, qs, xbuf, bs)
    ensures AllOk(bs) && forall k, l :: 0 <= k < l < |bs| ==> bs[k] != bs[l]
  {
    hide IsHit, DataApart, Ok, SearchList, SearchFrom;
    StartOfSearch(n, esize, es, qs);
    SearchNoRepeats(n, esize, es, qs, 0);
    var s := AsBlks(SearchList(n, esize, es, qs, 0), esize, xbuf);
    forall k, l | 0 <= k < l < |s| ensures s[k] != s[l] { assert s[k].isect != s[l].isect; }
    PermutedNoRepeats(s, bs);
    forall t | 0 <= t < |bs| ensures Ok(bs[t]) { var i, j, m := FoundSource(n, esize, es, qs, xbuf, bs, t); }
  }

  lemma FoundApart(n: nat, esize: nat, es: seq<Entry>, qs: seq<Block>, xbuf: int, bs: seq<Blk>)
    requires Readable(n, esize, es, qs) && Found(n, esize, es, qs, xbuf, bs)
    ensures AllOk(bs) && AllApart(bs)
  {
    hide IsHit, Searchable, AllBoxesApart, NoShare, Ok, Found;
    SearchableRanks(n, esize, es, qs);
    FoundOnce(n, esize, es, qs, xbuf, bs);
    forall k, l | 0 <= k < l < |bs| ensures NoShare(bs[k], bs[l])
    {
      var i, j, m := FoundSource(n, esize, es, qs, xbuf, bs, k);
      var i', j', m' := FoundSource(n, esize, es, qs, xbuf, bs, l);
      if i == i' && j == j' && m == m' { SameHit(n, esize, es, qs, bs[k].isect, bs[l].isect, i, j, m); }
      HitsShareNothing(n, esize, es, qs, xbuf, bs[k].isect, i, j, m, bs[l].isect, i', j', m');
    }
  }

  lemma SameHit(n: nat, esize: nat, es: seq<Entry>, qs: seq<Block>, h: Isect, h': Isect, i: nat, j: nat, m: nat)
    requires Rank(n, qs) && Ranked(n, es) && IsHit(n, esize, es, qs, h, i, j, m) && IsHit(n, esize, es, qs, h', i, j, m)
    ensures h == h'
  {
  }

  lemma StartOfSearch(n: nat, esize: nat, es: seq<Entry>, qs: seq<Block>)
    requires Rank(n, qs) && Ranked(n, es)
    ensures SearchFrom(n, esize, es, qs, 0) == SearchList(n, esize, es, qs, 0)
  {
    assert qs[0..] == qs && qs[..0] == [];
  }

  /** Entry blocks whose data start at the same place are the same. */
  lemma SameBaseSameSel(n: nat, esize: nat, es: seq<Entry>, qs: seq<Block>, j: nat, m: nat, j': nat, m': nat)
    requires Searchable(n, esize, es, qs) && IsSel(es, j, m) && IsSel(es, j', m') && SelBase(es, j, m) == SelBase(es, j', m')
    ensures j == j' && m == m'
  {
    ProdPositive(SelAt(es, j, m).count);
    ProdPositive(SelAt(es, j', m').count);
    MulMono(1, Prod(SelAt(es, j, m).count), esize);
    MulMono(1, Prod(SelAt(es, j', m').count), esize);
    assert (j != j' || m != m') ==> Reaches(es, esize, j, m, j', m') || Reaches(es, esize, j', m', j, m);
  }

  lemma FoundSameByte(n: nat, esize: nat, es: seq<Entry>, qs: seq<Block>, xbuf: int, bs: seq<Blk>, i: nat, x: Coord, k: nat)
    requires Searchable(n, esize, es, qs) && Found(n, esize, es, qs, xbuf, bs) && AllOk(bs) && i < |qs| && InBoxOk(n, qs[i], x) && k < esize
    ensures SameBaseSameByte(bs, BufferAt(qs, esize, xbuf, i, x, k))
  {
    hide IsHit, Searchable, Found, Ok, Brings;
    SearchableRanks(n, esize, es, qs);
    var a := BufferAt(qs, esize, xbuf, i, x, k);
    forall s, t, f, g | 0 <= s < |bs| && 0 <= t < |bs| && Base(bs[s]) == Base(bs[t]) && Brings(bs[s], a, f) && Brings(bs[t], a, g)
      ensures f == g
    {
      var i1, j1, m1 := FoundSource(n, esize, es, qs, xbuf, bs, s);
      var i2, j2, m2 := FoundSource(n, esize, es, qs, xbuf, bs, t);
      BringsCover(n, esize, es, qs, xbuf, i, x, k, bs[s].isect, i1, j1, m1, f);
      BringsCover(n, esize, es, qs, xbuf, i, x, k, bs[t].isect, i2, j2, m2, g);
      SameBaseSameSel(n, esize, es, qs, j1, m1, j2, m2);
    }
  }

  lemma FurthestIsWinner(n: nat, esize: nat, es: seq<Entry>, qs: seq<Block>, xbuf: int, bs: seq<Blk>, i: nat, x: Coord, k: nat, j: nat, m: nat) returns (t: nat)
    requires Searchable(n, esize, es, qs) && Found(n, esize, es, qs, xbuf, bs) && AllOk(bs) && i < |qs| && InBoxOk(n, qs[i], x) && k < esize
    requires Furthest(es, j, m, x)
    ensures Wins(bs, 0, t, BufferAt(qs, esize, xbuf, i, x, k), DataAt(es, esize, j, m, x) + k)
  {
    hide IsHit, Searchable, Found, Ok, Brings;
    SearchableRanks(n, esize, es, qs);
    var a := BufferAt(qs, esize, xbuf, i, x, k);
    var h := CoverBrings(n, esize, es, qs, xbuf, i, x, k, j, m);
    FoundMember(n, esize, es, qs, xbuf, bs, AsBlk(h, esize, xbuf));
    t :| 0 <= t < |bs| && bs[t] == AsBlk(h, esize, xbuf);
    HitOk(n, esize, es, qs, xbuf, h, i, j, m);
    forall s | 0 <= s < |bs| && Touches(bs[s], a) ensures Base(bs[s]) <= Base(bs[t])
    {
      var f :| Brings(bs[s], a, f);
      var i', j', m' := FoundSource(n, esize, es, qs, xbuf, bs, s);
      BringsCover(n, esize, es, qs, xbuf, i, x, k, bs[s].isect, i', j', m', f);
    }
  }

  lemma UncoveredUntouched(n: nat, esize: nat, es: seq<Entry>, qs: seq<Block>, xbuf: int, bs: seq<Blk>, i: nat, x: Coord, k: nat)
    requires Searchable(n, esize, es, qs) && Found(n, esize, es, qs, xbuf, bs) && AllOk(bs) && i < |qs| && InBoxOk(n, qs[i], x) && k < esize
    requires forall j: nat, m: nat :: !CoverAt(es, j, m, x)
    ensures NothingFrom(bs, 0, BufferAt(qs, esize, xbuf, i, x, k))
  {
    hide IsHit, Searchable, Found, Ok, Brings;
    SearchableRanks(n, esize, es, qs);
    var a := BufferAt(qs, esize, xbuf, i, x, k);
    forall s | 0 <= s < |bs| ensures !Touches(bs[s], a)
    {
      if Touches(bs[s], a) {
        var f :| Brings(bs[s], a, f);
        var i', j', m' := FoundSource(n, esize, es, qs, xbuf, bs, s);
        BringsCover(n, esize, es, qs, xbuf, i, x, k, bs[s].isect, i', j', m', f);
        assert false;
      }
    }
  }

  /** A read refines last-writer-wins: after filling, searching, sorting, grouping and transferring, byte k of
      the element at x holds the data of the covering entry block with the greatest file address; an element
      that no entry covers keeps its fill value; and no overlap copy is recorded. */
  lemma ReadsLastWriter(n: nat, esize: nat, es: seq<Entry>, qs: seq<Block>, xbuf: int, bs: seq<Blk>, rs: seq<seq<Piece>>,
      mem: Store, file: Store, i: nat, x: Coord, k: nat)
    requires Readable(n, esize, es, qs) && Found(n, esize, es, qs, xbuf, bs)
    requires AllOk(bs) && InOrder(bs) && PlanOk(Groups(bs, 0), rs)
    requires i < |qs| && InBoxOk(n, qs[i], x) && k < esize
    ensures PlanCopies(Groups(bs, 0), rs) == []
    ensures (forall j: nat, m: nat :: !CoverAt(es, j, m, x)) ==>
      Load(mem, file, PlanPieces(Groups(bs, 0), rs), BufferAt(qs, esize, xbuf, i, x, k)) == mem(BufferAt(qs, esize, xbuf, i, x, k))
    ensures forall j: nat, m: nat :: Furthest(es, j, m, x) ==>
      Load(mem, file, PlanPieces(Groups(bs, 0), rs), BufferAt(qs, esize, xbuf, i, x, k)) == file(DataAt(es, esize, j, m, x) + k)
  {
    hide Searchable, AllBoxesApart, Found, Ok, Brings, InOrder, CoverAt, Furthest, Groups, PlanPieces, PlanCopies, Load;
    ReadableRanks(n, esize, es, qs);
    var a := BufferAt(qs, esize, xbuf, i, x, k);
    FoundApart(n, esize, es, qs, xbuf, bs);
    FoundSameByte(n, esize, es, qs, xbuf, bs, i, x, k);
    FurthestWins(bs, rs, mem, file, a);
    if forall j: nat, m: nat :: !CoverAt(es, j, m, x) { UncoveredUntouched(n, esize, es, qs, xbuf, bs, i, x, k); }
    forall j: nat, m: nat | Furthest(es, j, m, x)
      ensures CoverAt(es, j, m, x) && Load(mem, file, PlanPieces(Groups(bs, 0), rs), a) == file(DataAt(es, esize, j, m, x) + k)
    {
      FurthestCovers(es, j, m, x);
      var t := FurthestIsWinner(n, esize, es, qs, xbuf, bs, i, x, k, j, m);
    }
  }

  lemma FurthestCovers(es: seq<Entry>, j: nat, m: nat, x: Coord)
    requires Furthest(es, j, m, x)
    ensures CoverAt(es, j, m, x)
  {
  }
}
