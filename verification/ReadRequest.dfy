/** One read request from start to end: fill, search, sort, plan, transfer. */
module ReadRequest {
  import opened Grid
  import opened Bytes
  import opened MetaCodec
  import opened EntryCodec
  import opened IndexSearch
  import opened SortOffsets
  import opened Trim
  import opened ReadPlan
  import opened ReadGroups
  import opened ReadTypes
  import opened ReadLegal
  import opened ReadCuts
  import opened ReadWins
  import opened ReadPath
  import opened ReadOrder
  import opened ReadGuard
  import opened ReadBatch
  import opened RequestBuffer

  function AsStore(s: seq<byte>): Store
  {
    a => if 0 <= a < |s| then s[a] else 0
  }

  function Repeat(fill: seq<byte>, count: nat): (r: seq<byte>)
    decreases count
  {
    if count == 0 then [] else Repeat(fill, count - 1) + fill
  }

  lemma {:induction false} RepeatAt(fill: seq<byte>, count: nat, e: nat, k: nat)
    requires e < count && k < |fill|
    ensures |Repeat(fill, count)| == count * |fill| && ElementByte(e, |fill|, k) < count * |fill|
    ensures Repeat(fill, count)[ElementByte(e, |fill|, k)] == fill[k]
    decreases count
  {
    RepeatLen(fill, count);
    RepeatLen(fill, count - 1);
    StepMul(e, count, |fill|);
    if e < count - 1 { RepeatAt(fill, count - 1, e, k); }
  }

  lemma {:induction false} RepeatLen(fill: seq<byte>, count: nat)
    ensures |Repeat(fill, count)| == count * |fill|
    decreases count
  {
    if count > 0 {
      RepeatLen(fill, count - 1);
      Distribute(count - 1, 1, |fill|);
    }
  }

  /** The fill loop: the fill value in every element of the request's buffer. */
  method FillBuffer(buf: array<byte>, fill: seq<byte>, count: nat)
    requires buf.Length == count * |fill|
    modifies buf
    ensures buf[..] == Repeat(fill, count)
  {
    var ptr, e := 0, 0;
    while e < count
      invariant 0 <= e <= count && ptr == e * |fill| <= buf.Length && buf[..ptr] == Repeat(fill, e)
    {
      StepMul(e, count, |fill|);
      Distribute(e, 1, |fill|);
      ptr := Emit(buf, ptr, fill);
      e := e + 1;
    }
    assert buf[..ptr] == buf[..];
  }

  function ElementByte(e: nat, esize: nat, k: nat): nat { e * esize + k }

  ghost predicate LandsIn(ps: seq<Piece>, n: nat)
  {
    forall i, a :: 0 <= i < |ps| && Into(ps[i], a) ==> 0 <= a < n
  }

  lemma LoadSnoc(mem: Store, file: Store, ps: seq<Piece>, t: nat, a: int)
    requires t < |ps|
    ensures Load(mem, file, ps[..t + 1], a) == if Into(ps[t], a) then file(ps[t].foff + (a - ps[t].moff)) else Load(mem, file, ps[..t], a)
  {
    assert ps[..t + 1][..t] == ps[..t] && ps[..t + 1][t] == ps[t];
  }

  /** One contiguous transfer from the file. */
  method ReadPiece(p: Piece, file: seq<byte>, buf: array<byte>)
    requires forall a :: Into(p, a) ==> 0 <= a < buf.Length
    modifies buf
    ensures forall a :: 0 <= a < buf.Length ==> buf[a] == if Into(p, a) then AsStore(file)(p.foff + (a - p.moff)) else old(buf[a])
  {
    var k := 0;
    while k < p.len
      invariant 0 <= k <= p.len
      invariant forall a :: 0 <= a < buf.Length ==>
        buf[a] == if p.moff <= a < p.moff + k then AsStore(file)(p.foff + (a - p.moff)) else old(buf[a])
    {
      assert Into(p, p.moff + k);
      var f := p.foff + k;
      buf[p.moff + k] := if 0 <= f < |file| then file[f] else 0;
      k := k + 1;
    }
  }

  /** The collective read: the transfers of the types' type map, in order. */
  method ReadTypesAt(ps: seq<Piece>, file: seq<byte>, buf: array<byte>)
    requires LandsIn(ps, buf.Length)
    modifies buf
    ensures forall a :: 0 <= a < buf.Length ==> buf[a] == Load(AsStore(old(buf[..])), AsStore(file), ps, a)
  {
    hide Load;
    ghost var mem := AsStore(buf[..]);
    var t := 0;
    forall a | 0 <= a < buf.Length ensures buf[a] == Load(mem, AsStore(file), ps[..0], a) { LoadNothing(mem, AsStore(file), a); }
    while t < |ps|
      invariant 0 <= t <= |ps|
      invariant forall a :: 0 <= a < buf.Length ==> buf[a] == Load(mem, AsStore(file), ps[..t], a)
    {
      ghost var was := buf[..];
      ReadPiece(ps[t], file, buf);
      forall a | 0 <= a < buf.Length ensures buf[a] == Load(mem, AsStore(file), ps[..t + 1], a)
      {
        LoadSnoc(mem, AsStore(file), ps, t, a);
        assert was[a] == Load(mem, AsStore(file), ps[..t], a);
      }
      t := t + 1;
    }
    assert ps[..t] == ps;
  }

  lemma LoadNothing(mem: Store, file: Store, a: int)
    ensures Load(mem, file, [], a) == mem(a)
  {
  }

  // ----- what the planner needs of a search result -----

  /** Scalar requests must not ask for the same element twice. */
  ghost predicate Plannable(n: nat, esize: nat, es: seq<Entry>, qs: seq<Block>)
  {
    Searchable(n, esize, es, qs) && (n == 0 ==> AllBoxesApart(n, qs))
  }

  lemma FoundTyped(n: nat, esize: nat, es: seq<Entry>, qs: seq<Block>, xbuf: int, bs: seq<Blk>)
    requires Plannable(n, esize, es, qs) && Found(n, esize, es, qs, xbuf, bs) && AllOk(bs)
    ensures Typed(bs) && ScalarsAlone(bs) && Comparable(bs)
  {
    hide IsHit, Searchable, Found, Ok, AllBoxesApart;
    SearchableRanks(n, esize, es, qs);
    FoundOnce(n, esize, es, qs, xbuf, bs);
    forall t | 0 <= t < |bs| ensures Rk(bs[t]) == n
    {
      var i, j, m := FoundSource(n, esize, es, qs, xbuf, bs, t);
      HitRank(n, esize, es, qs, bs[t].isect, i, j, m);
    }
    forall s, t | 0 <= s < |bs| && 0 <= t < |bs| && s != t && SameSource(bs[s], bs[t]) ensures Rk(bs[s]) > 0
    {
      var i, i', j, m := SourceOfFound(n, esize, es, qs, xbuf, bs, s, t);
      HitRank(n, esize, es, qs, bs[s].isect, i, j, m);
      HitRank(n, esize, es, qs, bs[t].isect, i', j, m);
      if i == i' { SameHit(n, esize, es, qs, bs[s].isect, bs[t].isect, i, j, m); }
      if n == 0 { ScalarBoxesMeet(n, qs, i, i'); }
    }
  }

  lemma ScalarBoxesMeet(n: nat, qs: seq<Block>, i: nat, j: nat)
    requires Rank(n, qs) && AllBoxesApart(n, qs) && i < |qs| && j < |qs| && i != j
    ensures n > 0
  {
    EmptyCoordinate(qs[i]);
    EmptyCoordinate(qs[j]);
    if i < j { assert BoxesApart(qs[i], qs[j]); } else { assert BoxesApart(qs[j], qs[i]); }
  }

  lemma EmptyCoordinate(b: Block)
    ensures |b.start| == |b.count| == 0 ==> InBox([], b)
  {
  }

  ghost predicate CopiesLand(cs: seq<Copy>, n: nat)
  {
    forall i, a :: 0 <= i < |cs| && InTo(cs[i], a) ==> 0 <= a < n && 0 <= cs[i].src + (a - cs[i].dst) < n
  }

  /** All transfers and copies of a plan stay within the buffer. */
  lemma PlanLands(n: nat, esize: nat, es: seq<Entry>, qs: seq<Block>, bs: seq<Blk>, rs: seq<seq<Piece>>)
    requires Searchable(n, esize, es, qs) && Found(n, esize, es, qs, 0, bs) && AllOk(bs) && PlanOk(Groups(bs, 0), rs)
    ensures |rs| == |Groups(bs, 0)| && GroupsOk(Groups(bs, 0))
    ensures LandsIn(PlanPieces(Groups(bs, 0), rs), SelSize(qs) * esize) && CopiesLand(PlanCopies(Groups(bs, 0), rs), SelSize(qs) * esize)
  {
    hide IsHit, Searchable, Found, Ok, Groups, PlanPieces, PlanCopies, AllRuns, Reached, PlanOk;
    SearchableRanks(n, esize, es, qs);
    PlanOkCounts(Groups(bs, 0), rs);
    GroupsFlat(bs);
    PlanWithin(Groups(bs, 0), rs);
    forall a | Reached(AllRuns(bs), a) ensures 0 <= a < SelSize(qs) * esize { ReachedInBuffer(n, esize, es, qs, bs, a); }
    var cs := PlanCopies(Groups(bs, 0), rs);
    forall i, a | 0 <= i < |cs| && InTo(cs[i], a)
      ensures 0 <= a < SelSize(qs) * esize && 0 <= cs[i].src + (a - cs[i].dst) < SelSize(qs) * esize
    {
      assert cs[i] in cs && CopyInside(AllRuns(bs), cs[i]);
      assert Reached(AllRuns(bs), cs[i].src + (a - cs[i].dst));
    }
  }

  lemma ReachedInBuffer(n: nat, esize: nat, es: seq<Entry>, qs: seq<Block>, bs: seq<Blk>, a: int)
    requires Searchable(n, esize, es, qs) && Found(n, esize, es, qs, 0, bs) && AllOk(bs) && Reached(AllRuns(bs), a)
    ensures 0 <= a < SelSize(qs) * esize
  {
    hide IsHit, Searchable, Found, Ok, AllRuns, Touches, CoverAt, BufferAt;
    SearchableRanks(n, esize, es, qs);
    GroupTouches(bs, a);
    var s :| 0 <= s < |bs| && Touches(bs[s], a);
    var i, j, m := FoundSource(n, esize, es, qs, 0, bs, s);
    var x, k := TouchIsElement(n, esize, es, qs, 0, bs[s].isect, i, j, m, a);
    BufferRange(n, esize, qs, i, x, k);
  }

  /** What the buffer of a request holds for byte k of the element at x of its block i. */
  ghost predicate Answered(n: nat, esize: nat, es: seq<Entry>, qs: seq<Block>, was: seq<byte>, file: seq<byte>, fill: Option<seq<byte>>,
      buf: seq<byte>, i: nat, x: Coord, k: nat)
    requires Rank(n, qs) && i < |qs| && InBoxOk(n, qs[i], x)
  {
    var a := BufferAt(qs, esize, 0, i, x, k);
    0 <= a < |buf| && |was| == |buf| &&
    ((forall j: nat, m: nat :: !CoverAt(es, j, m, x)) ==>
       buf[a] == if fill.Some? && k < |fill.value| then fill.value[k] else was[a]) &&
    forall j: nat, m: nat :: Furthest(es, j, m, x) && CoverAt(es, j, m, x) ==> buf[a] == AsStore(file)(DataAt(es, esize, j, m, x) + k)
  }

  lemma BufferRange(n: nat, esize: nat, qs: seq<Block>, i: nat, x: Coord, k: nat)
    requires Rank(n, qs) && i < |qs| && InBoxOk(n, qs[i], x) && k < esize
    ensures 0 <= BufferAt(qs, esize, 0, i, x, k) < SelSize(qs) * esize
  {
    hide Linear, Prod, SelSize, ElementByte, BufferAt;
    var e := ElementOf(n, esize, qs, i, x, k);
  }

  lemma ElementOf(n: nat, esize: nat, qs: seq<Block>, i: nat, x: Coord, k: nat) returns (e: nat)
    requires Rank(n, qs) && i < |qs| && InBoxOk(n, qs[i], x) && k < esize
    ensures e < SelSize(qs) && BufferAt(qs, esize, 0, i, x, k) == ElementByte(e, esize, k) < SelSize(qs) * esize
  {
    hide Linear, Prod, SelSize, ElementByte, BufferAt;
    e := SelSize(qs[..i]) + Linear(qs[i].count, Sub(x, qs[i].start));
    ElementIndex(n, qs, i, x);
    BufferElement(n, esize, qs, i, x, k);
    ElementInRange(e, SelSize(qs), esize, k);
  }

  lemma BufferElement(n: nat, esize: nat, qs: seq<Block>, i: nat, x: Coord, k: nat)
    requires Rank(n, qs) && i < |qs| && InBoxOk(n, qs[i], x)
    ensures BufferAt(qs, esize, 0, i, x, k) == ElementByte(SelSize(qs[..i]) + Linear(qs[i].count, Sub(x, qs[i].start)), esize, k)
  {
    hide Linear, Prod, SelSize, Repeat, ElementByte;
    SumElement(SelSize(qs[..i]), Linear(qs[i].count, Sub(x, qs[i].start)), esize, k);
  }

  lemma SumElement(s: nat, l: nat, esize: nat, k: nat)
    ensures s * esize + l * esize + k == ElementByte(s + l, esize, k)
  {
    Distribute(s, l, esize);
  }

  lemma ElementInRange(e: nat, count: nat, esize: nat, k: nat)
    requires e < count && k < esize
    ensures ElementByte(e, esize, k) < count * esize
  {
    StepMul(e, count, esize);
  }

  lemma ElementIndex(n: nat, qs: seq<Block>, i: nat, x: Coord)
    requires Rank(n, qs) && i < |qs| && InBoxOk(n, qs[i], x)
    ensures SelSize(qs[..i]) + Linear(qs[i].count, Sub(x, qs[i].start)) < SelSize(qs)
  {
    hide Linear;
    SubInBounds(qs[i], x);
    LinearBound(qs[i].count, Sub(x, qs[i].start));
    SizeGrows(qs, i, |qs|);
    assert qs[..|qs|] == qs;
  }

  /** One memcpy; source and destination do not overlap. */
  method MemCopy(c: Copy, buf: array<byte>)
    requires forall a :: InTo(c, a) ==> 0 <= a < buf.Length && 0 <= c.src + (a - c.dst) < buf.Length
    modifies buf
    ensures forall a :: 0 <= a < buf.Length ==> 0 <= Moved(c, a) < buf.Length && buf[a] == old(buf[Moved(c, a)])
  {
    var was := buf[..];
    var k := 0;
    while k < c.size
      invariant 0 <= k <= c.size
      invariant forall a :: 0 <= a < buf.Length ==> 0 <= Moved(c, a) < buf.Length && buf[a] == was[if a < c.dst + k then Moved(c, a) else a]
    {
      assert InTo(c, c.dst + k) && Moved(c, c.dst + k) == c.src + k;
      buf[c.dst + k] := was[c.src + k];
      k := k + 1;
    }
  }

  /** The recorded copies, in order. */
  method CopyOverlaps(cs: seq<Copy>, buf: array<byte>)
    requires CopiesLand(cs, buf.Length)
    modifies buf
    ensures forall a :: 0 <= a < buf.Length ==> 0 <= Trace(cs, a) < buf.Length && buf[a] == old(buf[Trace(cs, a)])
  {
    hide Trace, Moved, Copied;
    ghost var was := buf[..];
    var t := 0;
    CopiedNone(was, cs[..0]);
    while t < |cs|
      invariant 0 <= t <= |cs| && Copied(was, buf[..], cs[..t])
    {
      ghost var prev := buf[..];
      MemCopy(cs[t], buf);
      CopiedMore(was, prev, buf[..], cs, t);
      t := t + 1;
    }
    assert cs[..t] == cs;
    CopiedAll(was, buf[..], cs);
  }

  ghost predicate Copied(was: seq<byte>, now: seq<byte>, cs: seq<Copy>)
  {
    |now| == |was| && forall a :: 0 <= a < |now| ==> 0 <= Trace(cs, a) < |was| && now[a] == was[Trace(cs, a)]
  }

  lemma CopiedNone(was: seq<byte>, cs: seq<Copy>)
    requires cs == []
    ensures Copied(was, was, cs)
  {
    hide Trace;
    forall a | 0 <= a < |was| ensures 0 <= Trace(cs, a) < |was| && was[a] == was[Trace(cs, a)] { TraceStays(cs, a); }
  }

  lemma CopiedMore(was: seq<byte>, prev: seq<byte>, now: seq<byte>, cs: seq<Copy>, t: nat)
    requires t < |cs| && Copied(was, prev, cs[..t]) && |now| == |prev|
    requires forall a :: 0 <= a < |now| ==> 0 <= Moved(cs[t], a) < |prev| && now[a] == prev[Moved(cs[t], a)]
    ensures Copied(was, now, cs[..t + 1])
  {
    hide Trace, Moved;
    var r := cs[..t + 1];
    forall a | 0 <= a < |now| ensures 0 <= Trace(r, a) < |was| && now[a] == was[Trace(r, a)]
    {
      TraceSnoc(cs, t, a);
    }
    assert Copied(was, now, r);
  }

  lemma CopiedAll(was: seq<byte>, now: seq<byte>, cs: seq<Copy>)
    requires Copied(was, now, cs)
    ensures |now| == |was| && forall a :: 0 <= a < |now| ==> 0 <= Trace(cs, a) < |was| && now[a] == was[Trace(cs, a)]
  {
  }

  lemma TraceSnoc(cs: seq<Copy>, t: nat, a: int)
    requires t < |cs|
    ensures Trace(cs[..t + 1], a) == Trace(cs[..t], Moved(cs[t], a))
  {
    assert cs[..t + 1][..t] == cs[..t] && cs[..t + 1][t] == cs[t];
  }

  /** bs and rs are what the planner may make of a search: the intersections in order, and the runs of every group
      in file order. */
  ghost predicate PlannedAs(n: nat, esize: nat, es: seq<Entry>, qs: seq<Block>, bs: seq<Blk>, rs: seq<seq<Piece>>)
    requires Rank(n, qs) && Ranked(n, es)
  {
    Found(n, esize, es, qs, 0, bs) && AllOk(bs) && InOrder(bs) && PlanOk(Groups(bs, 0), rs)
  }

  /** The read of a list of request blocks - those of one request or of several behind one another - against an
      index whose list for the dataset is `es`: fill, sort, plan, transfer, copy. */
  method PerformRead(n: nat, esize: nat, ghost es: seq<Entry>, qs: seq<Block>, intersecs: seq<Isect>, fill: Option<seq<byte>>, file: seq<byte>, buf: array<byte>)
      returns (ghost bs: seq<Blk>, ghost rs: seq<seq<Piece>>)
    requires Plannable(n, esize, es, qs) && multiset(intersecs) == multiset(SearchList(n, esize, es, qs, 0))
    requires buf.Length == SelSize(qs) * esize && (fill.Some? ==> |fill.value| == esize)
    modifies buf
    ensures PlannedAs(n, esize, es, qs, bs, rs) && |rs| == |Groups(bs, 0)| && GroupsOk(Groups(bs, 0))
    ensures Legal(PlanPieces(Groups(bs, 0), rs)) <==> CutsClean(bs)
    ensures InSequence(n, qs) ==> AllBoxesApart(n, qs) && Legal(PlanPieces(Groups(bs, 0), rs))
    ensures AllBoxesApart(n, qs) || (NoneTwice(es) && CleanGroups(Groups(bs, 0), rs)) ==>
      forall i: nat, x: Coord, k: nat :: i < |qs| && InBoxOk(n, qs[i], x) && k < esize ==>
        Answered(n, esize, es, qs, old(buf[..]), file, fill, buf[..], i, x, k)
  {
    hide Searchable, AllBoxesApart, Found, Ok, InOrder, Groups, PlanPieces, PlanCopies, Load, Runs, TypeMap, PlanOk, LandsIn, CopiesLand, Trace,
      Legal, CutsClean, InSequence, NoneTwice, CleanGroups, Answered;
    SearchableRanks(n, esize, es, qs);
    ghost var was := buf[..];
    if fill.Some? { FillBuffer(buf, fill.value, SelSize(qs)); }
    ghost var mem := buf[..];
    var found := AsBlks(intersecs, esize, 0);
    FoundHere(n, esize, es, qs, intersecs, found);
    FoundTyped(n, esize, es, qs, 0, found);
    var blocks := SortIntersections(found);
    bs := blocks;
    FoundSorted(n, esize, es, qs, found, bs);
    FoundTyped(n, esize, es, qs, 0, bs);
    var types, overlaps;
    types, overlaps, rs := GenTypes(blocks);
    PlanIsOk(bs, rs);
    PlanLands(n, esize, es, qs, bs, rs);
    ReadTypesAt(TypeMap(types), file, buf);
    CopyOverlaps(overlaps, buf);
    PlanIsLegal(n, esize, es, qs, bs, rs);
    ghost var now := buf[..];
    forall a | 0 <= a < |now| ensures now[a] == Load(AsStore(mem), AsStore(file), PlanPieces(Groups(bs, 0), rs), Trace(overlaps, a)) {}
    if AllBoxesApart(n, qs) || (NoneTwice(es) && CleanGroups(Groups(bs, 0), rs)) {
      AllAnswered(n, esize, es, qs, was, mem, file, fill, now, bs, rs);
    }
  }

  lemma PlanIsLegal(n: nat, esize: nat, es: seq<Entry>, qs: seq<Block>, bs: seq<Blk>, rs: seq<seq<Piece>>)
    requires Searchable(n, esize, es, qs) && Found(n, esize, es, qs, 0, bs) && AllOk(bs) && InOrder(bs) && PlanOk(Groups(bs, 0), rs)
    ensures Legal(PlanPieces(Groups(bs, 0), rs)) <==> CutsClean(bs)
    ensures InSequence(n, qs) ==> AllBoxesApart(n, qs) && Legal(PlanPieces(Groups(bs, 0), rs))
  {
    hide Searchable, AllBoxesApart, Found, Ok, InOrder, Groups, PlanPieces, Legal, InSequence, CutsClean, Sources, PlanOk;
    SearchableRanks(n, esize, es, qs);
    FoundSources(n, esize, es, qs, 0, bs);
    LegalExactly(bs, rs);
    if InSequence(n, qs) {
      InSequenceApart(n, qs);
      CanonicalReadIsLegal(n, esize, es, qs, 0, bs, rs);
    }
  }

  /** Whatever plan is made of the search, its file type is legal. */
  ghost predicate ViewsLegal(n: nat, esize: nat, es: seq<Entry>, qs: seq<Block>)
  {
    Rank(n, qs) && Ranked(n, es) &&
    forall bs, rs :: PlannedAs(n, esize, es, qs, bs, rs) ==> Legal(PlanPieces(Groups(bs, 0), rs))
  }

  lemma InSequenceViews(n: nat, esize: nat, es: seq<Entry>, qs: seq<Block>)
    requires Searchable(n, esize, es, qs) && InSequence(n, qs)
    ensures ViewsLegal(n, esize, es, qs)
  {
    hide Searchable, AllBoxesApart, Found, Ok, InOrder, Groups, PlanPieces, Legal, InSequence, CutsClean;
    SearchableRanks(n, esize, es, qs);
    forall bs, rs | PlannedAs(n, esize, es, qs, bs, rs) ensures Legal(PlanPieces(Groups(bs, 0), rs))
    {
      PlanIsLegal(n, esize, es, qs, bs, rs);
    }
  }

  lemma AllAnswered(n: nat, esize: nat, es: seq<Entry>, qs: seq<Block>, was: seq<byte>, mem: seq<byte>, file: seq<byte>, fill: Option<seq<byte>>,
      now: seq<byte>, bs: seq<Blk>, rs: seq<seq<Piece>>)
    requires Searchable(n, esize, es, qs) && PlannedAs(n, esize, es, qs, bs, rs) && |rs| == |Groups(bs, 0)| && GroupsOk(Groups(bs, 0))
    requires |now| == |mem| == |was| == SelSize(qs) * esize
    requires if fill.Some? then |fill.value| == esize && mem == Repeat(fill.value, SelSize(qs)) else mem == was
    requires forall a :: 0 <= a < |now| ==>
      now[a] == Load(AsStore(mem), AsStore(file), PlanPieces(Groups(bs, 0), rs), Trace(PlanCopies(Groups(bs, 0), rs), a))
    requires AllBoxesApart(n, qs) || (NoneTwice(es) && CleanGroups(Groups(bs, 0), rs))
    ensures forall i: nat, x: Coord, k: nat :: i < |qs| && InBoxOk(n, qs[i], x) && k < esize ==>
      Answered(n, esize, es, qs, was, file, fill, now, i, x, k)
  {
    hide Searchable, AllBoxesApart, Found, Ok, InOrder, Groups, PlanPieces, PlanCopies, Load, PlanOk, Trace, CoverAt, Furthest, NoneTwice, CleanGroups, AsStore, CopyAll;
    SearchableRanks(n, esize, es, qs);
    forall i: nat, x: Coord, k: nat | i < |qs| && InBoxOk(n, qs[i], x) && k < esize
      ensures Answered(n, esize, es, qs, was, file, fill, now, i, x, k)
    {
      BufferRange(n, esize, qs, i, x, k);
      Filled(n, esize, qs, was, mem, fill, i, x, k);
      var a, ps, cs := BufferAt(qs, esize, 0, i, x, k), PlanPieces(Groups(bs, 0), rs), PlanCopies(Groups(bs, 0), rs);
      assert AsStore(mem)(a) == mem[a] by { InStore(mem, a); }
      if AllBoxesApart(n, qs) {
        ReadsLastWriter(n, esize, es, qs, 0, bs, rs, AsStore(mem), AsStore(file), i, x, k);
        TraceStays(cs, a);
      } else {
        ElementIsServed(n, esize, es, qs, 0, bs, rs, AsStore(mem), AsStore(file), i, x, k);
        CopyTraces(AsStore(mem), AsStore(file), ps, cs, a);
      }
    }
  }

  lemma InStore(s: seq<byte>, a: int)
    requires 0 <= a < |s|
    ensures AsStore(s)(a) == s[a]
  {
  }

  lemma FoundHere(n: nat, esize: nat, es: seq<Entry>, qs: seq<Block>, hs: seq<Isect>, bs: seq<Blk>)
    requires Searchable(n, esize, es, qs) && multiset(hs) == multiset(SearchList(n, esize, es, qs, 0)) && bs == AsBlks(hs, esize, 0)
    ensures Found(n, esize, es, qs, 0, bs) && AllOk(bs)
  {
    hide Searchable, Ok, SearchList, AsBlks;
    SearchableRanks(n, esize, es, qs);
    SameBlks(hs, SearchList(n, esize, es, qs, 0), esize);
    FoundOnce(n, esize, es, qs, 0, bs);
  }

  lemma BlksWithout(b: seq<Isect>, i: nat, esize: nat)
    requires i < |b|
    ensures multiset(b[..i] + b[i + 1..]) == multiset(b) - multiset{b[i]}
    ensures multiset(AsBlks(b, esize, 0)) == multiset(AsBlks(b[..i] + b[i + 1..], esize, 0)) + multiset{AsBlk(b[i], esize, 0)}
  {
    assert b == b[..i] + [b[i]] + b[i + 1..];
    assert AsBlks(b, esize, 0) == AsBlks(b[..i], esize, 0) + [AsBlk(b[i], esize, 0)] + AsBlks(b[i + 1..], esize, 0);
    AsBlksConcat(b[..i], b[i + 1..], esize, 0);
  }

  lemma {:induction false} SameBlks(a: seq<Isect>, b: seq<Isect>, esize: nat)
    requires multiset(a) == multiset(b)
    ensures multiset(AsBlks(a, esize, 0)) == multiset(AsBlks(b, esize, 0))
    decreases |a|
  {
    hide AsBlks;
    if a == [] {
      assert |multiset(b)| == 0;
      assert b == [];
    } else {
      assert a[0] in multiset(b);
      var i :| 0 <= i < |b| && b[i] == a[0];
      BlksWithout(a, 0, esize);
      BlksWithout(b, i, esize);
      SameBlks(a[..0] + a[1..], b[..i] + b[i + 1..], esize);
    }
  }

  lemma FoundSorted(n: nat, esize: nat, es: seq<Entry>, qs: seq<Block>, found: seq<Blk>, bs: seq<Blk>)
    requires Rank(n, qs) && Ranked(n, es) && Found(n, esize, es, qs, 0, found) && multiset(bs) == multiset(found)
    ensures Found(n, esize, es, qs, 0, bs)
  {
    hide SearchList, AsBlks;
  }

  lemma PlanIsOk(bs: seq<Blk>, rs: seq<seq<Piece>>)
    requires AllOk(bs) && GroupsOk(Groups(bs, 0)) && |rs| == |Groups(bs, 0)|
    requires forall i :: 0 <= i < |rs| ==> |Groups(bs, 0)[i]| == 1 || InFileOrder(Groups(bs, 0)[i], rs[i])
    ensures PlanOk(Groups(bs, 0), rs)
  {
    hide Ok, Groups, InFileOrder;
  }

  lemma Filled(n: nat, esize: nat, qs: seq<Block>, was: seq<byte>, mem: seq<byte>, fill: Option<seq<byte>>, i: nat, x: Coord, k: nat)
    requires Rank(n, qs) && i < |qs| && InBoxOk(n, qs[i], x) && k < esize && |mem| == |was| == SelSize(qs) * esize
    requires if fill.Some? then |fill.value| == esize && mem == Repeat(fill.value, SelSize(qs)) else mem == was
    ensures var a := BufferAt(qs, esize, 0, i, x, k);
            0 <= a < |mem| && mem[a] == if fill.Some? && k < |fill.value| then fill.value[k] else was[a]
  {
    hide Linear, Prod, SelSize, BufferAt;
    var e := ElementOf(n, esize, qs, i, x, k);
    if fill.Some? { RepeatAt(fill.value, SelSize(qs), e, k); }
  }
}
