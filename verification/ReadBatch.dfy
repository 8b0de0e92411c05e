/** Several requests in one transfer: their blocks may overlap, so ranges are read once and copied to the other
    destinations. Where every trimmed range has a clean end, every request gets all its data. */
module ReadBatch {
  import opened Grid
  import Radix
  import opened MetaCodec
  import opened IndexSearch
  import opened SortOffsets
  import opened Trim
  import opened ReadPlan
  import opened ReadGroups
  import opened ReadTypes
  import opened ReadLegal
  import opened ReadWins
  import opened ReadPath

  // ----- where a byte comes from -----

  /** The address whose directly read byte ends up at a. */
  function Trace(cs: seq<Copy>, a: int): int
    decreases |cs|
  {
    if cs == [] then a
    else
      var c := cs[|cs| - 1];
      Trace(cs[..|cs| - 1], Moved(c, a))
  }

  function Moved(c: Copy, a: int): int { if InTo(c, a) then c.src + (a - c.dst) else a }

  predicate InTo(c: Copy, a: int) { c.dst <= a < c.dst + c.size }

  lemma {:induction false} CopyTraces(mem: Store, file: Store, ps: seq<Piece>, cs: seq<Copy>, a: int)
    ensures CopyAll(mem, file, ps, cs, a) == Load(mem, file, ps, Trace(cs, a))
    decreases |cs|
  {
    hide Load;
    if cs != [] { CopyTraces(mem, file, ps, cs[..|cs| - 1], Moved(cs[|cs| - 1], a)); }
  }

  lemma {:induction false} TraceConcat(b: seq<Copy>, c: seq<Copy>, a: int)
    ensures Trace(b + c, a) == Trace(b, Trace(c, a))
    decreases |c|
  {
    hide Moved;
    if c == [] {
      assert b + c == b;
    } else {
      var t := c[..|c| - 1];
      TraceConcat(b, t, Moved(c[|c| - 1], a));
      assert (b + c)[..|b + c| - 1] == b + t && (b + c)[|b + c| - 1] == c[|c| - 1];
    }
  }

  lemma {:induction false} TraceStays(cs: seq<Copy>, a: int)
    requires forall c :: c in cs ==> !InTo(c, a)
    ensures Trace(cs, a) == a
    decreases |cs|
  {
    if cs != [] {
      assert cs[|cs| - 1] in cs;
      TraceStays(cs[..|cs| - 1], a);
    }
  }

  /** Both ends of a copy are where ranges of s go. */
  ghost predicate CopyInside(s: seq<Piece>, c: Copy)
  {
    forall a :: InTo(c, a) ==> Reached(s, a) && Reached(s, c.src + (a - c.dst))
  }

  ghost predicate Reached(s: seq<Piece>, a: int) { exists i :: 0 <= i < |s| && Into(s[i], a) }

  lemma {:induction false} TraceInside(s: seq<Piece>, cs: seq<Copy>, a: int)
    requires (forall c :: c in cs ==> CopyInside(s, c)) && Reached(s, a)
    ensures Reached(s, Trace(cs, a))
    decreases |cs|
  {
    hide Reached;
    if cs != [] {
      var c := cs[|cs| - 1];
      assert c in cs && CopyInside(s, c);
      TraceInside(s, cs[..|cs| - 1], Moved(c, a));
    }
  }

  lemma StepInside(s: seq<Piece>, k: nat, l: nat, c: Copy)
    requires SortedRange(s, 0, |s|) && k < l < |s| && c in CopyStep(s, k, l)
    ensures CopyInside(s, c)
  {
    hide CutBy;
    var x := CutBy(s[l], s[..k]);
    forall a | InTo(c, a) ensures Reached(s, a) && Reached(s, c.src + (a - c.dst))
    {
      assert Into(s[l], a);
      assert Into(s[k], c.src + (a - c.dst));
    }
  }

  lemma {:induction false} RecordedInside(s: seq<Piece>, k: nat, l: nat)
    requires SortedRange(s, 0, |s|) && k < l <= |s|
    ensures forall c :: c in Recorded(s, k, l) ==> CopyInside(s, c)
    decreases k, l
  {
    hide CopyInside, CopyStep, SortedRange;
    if l > k + 1 {
      RecordedInside(s, k, l - 1);
      forall c | c in Recorded(s, k, l) ensures CopyInside(s, c)
      {
        if c !in Recorded(s, k, l - 1) { StepInside(s, k, l - 1, c); }
      }
    } else if k > 0 {
      RecordedInside(s, k - 1, |s|);
    }
  }

  /** Trimming records copies within the destinations only. */
  lemma OverlapsInside(s: seq<Piece>)
    requires SortedRange(s, 0, |s|)
    ensures forall c :: c in Overlaps(s) ==> CopyInside(s, c)
  {
    hide CopyInside, Recorded;
    if s != [] { RecordedInside(s, |s| - 1, |s|); }
  }

  // ----- destinations of runs -----

  /** File and memory exchanged. */
  function Swap(b: Blk): Blk
  {
    var i := b.isect;
    Blk(Isect(Dest(b), i.fsize, 0, i.mstart, i.msize, i.dstart, i.dsize, i.count, 0), b.esize, Base(b))
  }

  lemma SwapRun(b: Blk, t: nat)
    requires Ok(b) && t < RunCount(b)
    ensures Ok(Swap(b)) && RunCount(Swap(b)) == RunCount(b)
    ensures RunNo(Swap(b), t) == Piece(RunNo(b, t).moff, RunNo(b, t).foff, RunNo(b, t).len)
  {
    hide Linear, Radix.Decode, Radix.Dsteps;
  }

  lemma RunsSpread(b: Blk)
    requires Ok(b)
    ensures Spread(Runs(b))
  {
    hide RunNo, RunCount, Ok;
    forall t, u, a | 0 <= t < |Runs(b)| && 0 <= u < |Runs(b)| && t != u && Into(Runs(b)[t], a) ensures !Into(Runs(b)[u], a)
    {
      SwapRun(b, t);
      SwapRun(b, u);
      if t < u { RunsOrdered(Swap(b), t, u); } else { RunsOrdered(Swap(b), u, t); }
    }
  }

  /** Destinations of different intersections do not overlap. */
  ghost predicate DestsApart(bs: seq<Blk>)
    requires AllOk(bs)
  {
    forall i, j, a :: 0 <= i < |bs| && 0 <= j < |bs| && i != j && Touches(bs[i], a) ==> !Touches(bs[j], a)
  }

  lemma SpreadConcat(s: seq<Piece>, t: seq<Piece>)
    requires Spread(s) && Spread(t) && forall p, q, a :: p in s && q in t && Into(p, a) ==> !Into(q, a)
    ensures Spread(s + t)
  {
    var r := s + t;
    forall i, j, a | 0 <= i < |r| && 0 <= j < |r| && i != j && Into(r[i], a) ensures !Into(r[j], a)
    {
      if i < |s| <= j { assert r[i] in s && r[j] in t; }
      if j < |s| <= i { assert r[j] in s && r[i] in t; }
    }
  }

  lemma RunTouches(b: Blk, p: Piece, a: int)
    requires Ok(b) && p in Runs(b) && Into(p, a)
    ensures Touches(b, a)
  {
    hide RunNo, RunCount;
    var t :| 0 <= t < |Runs(b)| && Runs(b)[t] == p;
    RunBrings(b, t, a);
  }

  lemma {:induction false} GroupTouches(g: seq<Blk>, a: int)
    requires AllOk(g)
    ensures Reached(AllRuns(g), a) <==> exists i :: 0 <= i < |g| && Touches(g[i], a)
    decreases |g|
  {
    hide RunNo, RunCount, Ok, Brings;
    if Reached(AllRuns(g), a) {
      var k :| 0 <= k < |AllRuns(g)| && Into(AllRuns(g)[k], a);
      var i, t := AllRunsMember(g, AllRuns(g)[k]);
      RunBrings(g[i], t, a);
      assert Touches(g[i], a);
    }
    if i :| 0 <= i < |g| && Touches(g[i], a) {
      var f :| Brings(g[i], a, f);
      var t := BringsRun(g[i], a, f);
      MemberAllRuns(g, i, t);
      var k :| 0 <= k < |AllRuns(g)| && AllRuns(g)[k] == RunNo(g[i], t);
      assert Into(AllRuns(g)[k], a);
    }
  }

  lemma {:induction false} GroupSpread(g: seq<Blk>)
    requires AllOk(g) && DestsApart(g)
    ensures Spread(AllRuns(g))
    decreases |g|
  {
    hide Ok, Runs, Touches, Spread;
    if g == [] {
      NothingSpread();
    } else {
      GroupSpread(g[1..]);
      RunsSpread(g[0]);
      forall p, q, a | p in Runs(g[0]) && q in AllRuns(g[1..]) && Into(p, a) ensures !Into(q, a)
      {
        if Into(q, a) { TwoTouch(g, p, q, a); }
      }
      SpreadConcat(Runs(g[0]), AllRuns(g[1..]));
    }
  }

  lemma NothingSpread()
    ensures Spread([])
  {
  }

  lemma TwoTouch(g: seq<Blk>, p: Piece, q: Piece, a: int)
    requires AllOk(g) && g != [] && p in Runs(g[0]) && q in AllRuns(g[1..]) && Into(p, a) && Into(q, a)
    ensures !DestsApart(g)
  {
    hide Ok, Runs, Touches;
    RunTouches(g[0], p, a);
    var k :| 0 <= k < |AllRuns(g[1..])| && AllRuns(g[1..])[k] == q;
    assert Reached(AllRuns(g[1..]), a);
    GroupTouches(g[1..], a);
    var i :| 0 <= i < |g[1..]| && Touches(g[1..][i], a);
    assert Touches(g[i + 1], a);
  }

  lemma {:induction false} SpreadOnce(s: seq<Piece>, i: nat)
    requires Spread(s) && (forall k :: 0 <= k < |s| ==> s[k].len > 0) && i < |s|
    ensures multiset(s)[s[i]] == 1
    decreases |s|
  {
    assert s == [s[0]] + s[1..];
    if i == 0 {
      forall j | 0 <= j < |s[1..]| ensures s[1..][j] != s[0] { assert Into(s[0], s[0].moff) && !Into(s[j + 1], s[0].moff); }
      assert s[0] !in s[1..];
    } else {
      assert Into(s[i], s[i].moff) && !Into(s[0], s[i].moff);
      SpreadOnce(s[1..], i - 1);
    }
  }

  /** The order of the ranges does not matter to their destinations. */
  lemma SpreadPermuted(s: seq<Piece>, r: seq<Piece>)
    requires Spread(s) && (forall k :: 0 <= k < |s| ==> s[k].len > 0) && multiset(r) == multiset(s)
    ensures Spread(r)
  {
    forall i, j, a | 0 <= i < |r| && 0 <= j < |r| && i != j && Into(r[i], a) ensures !Into(r[j], a)
    {
      assert r[i] in multiset(r) && r[j] in multiset(r);
      var k :| 0 <= k < |s| && s[k] == r[i];
      var l :| 0 <= l < |s| && s[l] == r[j];
      if k == l {
        SpreadOnce(s, k);
        if i < j { TwiceCounts(r, i, j); } else { TwiceCounts(r, j, i); }
      }
    }
  }

  // ----- one group -----

  /** The guard, group by group: the ranges in file order have clean ends. */
  ghost predicate CleanGroups(gs: seq<seq<Blk>>, rs: seq<seq<Piece>>)
    requires |rs| == |gs|
  {
    forall i :: 0 <= i < |gs| && |gs[i]| > 1 ==> CleanEnds(rs[i])
  }

  lemma RunsLong(g: seq<Blk>)
    requires AllOk(g)
    ensures forall k :: 0 <= k < |AllRuns(g)| ==> AllRuns(g)[k].len > 0
  {
    hide Ok, RunNo, RunCount;
    forall k | 0 <= k < |AllRuns(g)| ensures AllRuns(g)[k].len > 0
    {
      var i, t := AllRunsMember(g, AllRuns(g)[k]);
      RunInside(g[i], t);
    }
  }

  /** Every byte that a run of the group stands for is at its destination after the group's transfers and copies. */
  lemma GroupServes(g: seq<Blk>, r: seq<Piece>, mem: Store, file: Store, i: nat, a: int, f: int)
    requires GroupOk(g, r) && DestsApart(g) && (|g| > 1 ==> CleanEnds(r)) && i < |g| && Brings(g[i], a, f)
    ensures Load(mem, file, GroupPieces(g, r), Trace(GroupCopies(g, r), a)) == file(f)
  {
    hide Ok, RunNo, RunCount, Runs, Trimmed, Overlaps, CleanEnds, Spread, Load, DestsApart, CopyAll, Brings;
    var t := BringsRun(g[i], a, f);
    GroupSpread(g);
    RunsLong(g);
    MemberAllRuns(g, i, t);
    if |g| == 1 {
      AllRunsOne(g);
      ServedOne(AllRuns(g), mem, file, RunNo(g[i], t), a, f);
    } else {
      SpreadPermuted(AllRuns(g), r);
      InOrderMembers(g, r, RunNo(g[i], t));
      TrimServes(r);
      ServedPiece(r, mem, file, RunNo(g[i], t), a, f);
      CopyTraces(mem, file, Trimmed(r), Overlaps(r), a);
    }
  }

  lemma AllRunsOne(g: seq<Blk>)
    requires AllOk(g) && |g| == 1
    ensures AllRuns(g) == Runs(g[0])
  {
    hide Ok, Runs;
    assert g[1..] == [] && Runs(g[0]) + [] == Runs(g[0]);
  }

  lemma ServedOne(s: seq<Piece>, mem: Store, file: Store, p: Piece, a: int, f: int)
    requires Spread(s) && p in s && Hits(p, a, f)
    ensures Load(mem, file, s, a) == file(f)
  {
    var k :| 0 <= k < |s| && s[k] == p;
    LoadOnly(mem, file, s, k, a);
  }

  lemma ServedPiece(r: seq<Piece>, mem: Store, file: Store, p: Piece, a: int, f: int)
    requires Served(r, mem, file) && p in r && Hits(p, a, f)
    ensures CopyAll(mem, file, Trimmed(r), Overlaps(r), a) == file(f)
  {
    hide Trimmed, Overlaps, CopyAll;
    var l :| 0 <= l < |r| && r[l] == p;
    assert InRange(r[l], f) && Address(r[l], f) == a;
  }

  /** Pieces and copies of a group stay within its destinations. */
  lemma GroupWithin(g: seq<Blk>, r: seq<Piece>)
    requires GroupOk(g, r)
    ensures forall p, a :: p in GroupPieces(g, r) && Into(p, a) ==> Reached(AllRuns(g), a)
    ensures forall c :: c in GroupCopies(g, r) ==> CopyInside(AllRuns(g), c)
  {
    hide Ok, Runs, Overlaps, CutBy;
    if |g| == 1 {
      AllRunsOne(g);
      forall p, a | p in GroupPieces(g, r) && Into(p, a) ensures Reached(AllRuns(g), a)
      {
        var i :| 0 <= i < |Runs(g[0])| && Runs(g[0])[i] == p;
        assert Into(AllRuns(g)[i], a);
      }
    } else {
      OverlapsInside(r);
      forall c | c in GroupCopies(g, r) ensures CopyInside(AllRuns(g), c) { InsidePermuted(AllRuns(g), r, c); }
      forall p, a | p in GroupPieces(g, r) && Into(p, a) ensures Reached(AllRuns(g), a)
      {
        var l :| 0 <= l < |r| && Trimmed(r)[l] == p;
        assert Into(r[l], a);
        ReachedPermuted(AllRuns(g), r, a);
      }
    }
  }

  lemma ReachedPermuted(s: seq<Piece>, r: seq<Piece>, a: int)
    requires multiset(r) == multiset(s)
    ensures Reached(r, a) ==> Reached(s, a)
  {
    if i :| 0 <= i < |r| && Into(r[i], a) {
      assert r[i] in multiset(r);
      var k :| 0 <= k < |s| && s[k] == r[i];
    }
  }

  lemma InsidePermuted(s: seq<Piece>, r: seq<Piece>, c: Copy)
    requires multiset(r) == multiset(s) && CopyInside(r, c)
    ensures CopyInside(s, c)
  {
    hide Reached;
    forall a | InTo(c, a) ensures Reached(s, a) && Reached(s, c.src + (a - c.dst))
    {
      ReachedPermuted(s, r, a);
      ReachedPermuted(s, r, c.src + (a - c.dst));
    }
  }

  // ----- all groups -----

  function Flat(gs: seq<seq<Blk>>): (bs: seq<Blk>)
    decreases |gs|
  {
    if gs == [] then [] else gs[0] + Flat(gs[1..])
  }

  lemma {:induction false} FlatGroups(bs: seq<Blk>, s: nat)
    requires AllOk(bs) && s <= |bs|
    ensures Flat(Groups(bs, s)) == bs[s..]
    decreases |bs| - s
  {
    hide Ok, GroupEnd;
    if s < |bs| {
      var e := GroupEnd(bs, s, s);
      FlatGroups(bs, e);
      assert Groups(bs, s)[1..] == Groups(bs, e);
      assert bs[s..] == bs[s..e] + bs[e..];
    }
  }

  lemma LoadFirst(mem: Store, file: Store, p: seq<Piece>, q: seq<Piece>, a: int)
    requires forall x :: x in q ==> !Into(x, a)
    ensures Load(mem, file, p + q, a) == Load(mem, file, p, a)
  {
    hide Load;
    LoadConcat(mem, file, p, q, a);
  }

  lemma LoadSecond(mem: Store, file: Store, p: seq<Piece>, q: seq<Piece>, a: int)
    requires forall x :: x in p ==> !Into(x, a)
    ensures Load(mem, file, p + q, a) == Load(mem, file, q, a)
  {
    hide Load;
    LoadConcat(mem, file, p, q, a);
    if forall x :: x in q ==> !Into(x, a) {
      LoadNone(mem, file, p, a);
      LoadNone(mem, file, q, a);
    }
  }

  /** Pieces and copies of the plan stay within the destinations of its intersections. */
  lemma {:induction false} PlanWithin(gs: seq<seq<Blk>>, rs: seq<seq<Piece>>)
    requires PlanOk(gs, rs)
    ensures AllOk(Flat(gs))
    ensures forall p, a :: p in PlanPieces(gs, rs) && Into(p, a) ==> Reached(AllRuns(Flat(gs)), a)
    ensures forall c :: c in PlanCopies(gs, rs) ==> CopyInside(AllRuns(Flat(gs)), c)
    decreases |gs|
  {
    hide Ok, GroupPieces, GroupCopies, GroupOk, Reached, AllRuns;
    if gs != [] {
      assert GroupOk(gs[0], rs[0]) && AllOk(gs[0]);
      PlanWithin(gs[1..], rs[1..]);
      GroupWithin(gs[0], rs[0]);
      forall a ensures Reached(AllRuns(gs[0]), a) || Reached(AllRuns(Flat(gs[1..])), a) ==> Reached(AllRuns(Flat(gs)), a)
      {
        ReachedConcat(gs[0], Flat(gs[1..]), a);
      }
    }
  }

  lemma ReachedConcat(g: seq<Blk>, h: seq<Blk>, a: int)
    requires AllOk(g) && AllOk(h)
    ensures AllOk(g + h) && (Reached(AllRuns(g + h), a) <==> Reached(AllRuns(g), a) || Reached(AllRuns(h), a))
  {
    hide Ok, Reached, AllRuns, Touches;
    GroupTouches(g, a);
    GroupTouches(h, a);
    GroupTouches(g + h, a);
    if i :| 0 <= i < |g| && Touches(g[i], a) { assert (g + h)[i] == g[i]; }
    if i :| 0 <= i < |h| && Touches(h[i], a) { assert (g + h)[|g| + i] == h[i]; }
  }

  /** Destinations of the first group and of the others are apart. */
  lemma ApartConcat(g: seq<Blk>, h: seq<Blk>, a: int)
    requires AllOk(g + h) && DestsApart(g + h)
    ensures AllOk(g) && AllOk(h) && DestsApart(g) && DestsApart(h) && !(Reached(AllRuns(g), a) && Reached(AllRuns(h), a))
  {
    hide Ok, Reached, AllRuns, Touches;
    var s := g + h;
    forall i | 0 <= i < |g| ensures Ok(g[i]) { assert s[i] == g[i]; }
    forall i | 0 <= i < |h| ensures Ok(h[i]) { assert s[|g| + i] == h[i]; }
    GroupTouches(g, a);
    GroupTouches(h, a);
    forall i, j, x | 0 <= i < |g| && 0 <= j < |g| && i != j && Touches(g[i], x) ensures !Touches(g[j], x)
    {
      assert s[i] == g[i] && s[j] == g[j];
    }
    forall i, j, x | 0 <= i < |h| && 0 <= j < |h| && i != j && Touches(h[i], x) ensures !Touches(h[j], x)
    {
      assert s[|g| + i] == h[i] && s[|g| + j] == h[j];
    }
    forall i, j | 0 <= i < |g| && Touches(g[i], a) && 0 <= j < |h| ensures !Touches(h[j], a)
    {
      assert s[i] == g[i] && s[|g| + j] == h[j];
    }
  }

  lemma CopiesMiss(s: seq<Piece>, cs: seq<Copy>, a: int)
    requires (forall c :: c in cs ==> CopyInside(s, c)) && !Reached(s, a)
    ensures forall c :: c in cs ==> !InTo(c, a)
  {
    hide Reached;
    forall c | c in cs ensures !InTo(c, a) { assert CopyInside(s, c); }
  }

  /** At a destination of one group the plan does what that group does. */
  lemma {:induction false} PlanLocal(gs: seq<seq<Blk>>, rs: seq<seq<Piece>>, mem: Store, file: Store, t: nat, a: int)
    requires PlanOk(gs, rs) && AllOk(Flat(gs)) && DestsApart(Flat(gs)) && t < |gs| && Reached(AllRuns(gs[t]), a)
    ensures Load(mem, file, PlanPieces(gs, rs), Trace(PlanCopies(gs, rs), a))
         == Load(mem, file, GroupPieces(gs[t], rs[t]), Trace(GroupCopies(gs[t], rs[t]), a))
    decreases |gs|
  {
    hide Ok, GroupPieces, GroupCopies, GroupOk, Reached, AllRuns, DestsApart, Load, Trace, CopyInside;
    var g, h, a' := gs[0], Flat(gs[1..]), Trace(PlanCopies(gs[1..], rs[1..]), a);
    var gp, gc, hp, hc := GroupPieces(g, rs[0]), GroupCopies(g, rs[0]), PlanPieces(gs[1..], rs[1..]), PlanCopies(gs[1..], rs[1..]);
    assert GroupOk(g, rs[0]) && AllOk(g);
    GroupWithin(g, rs[0]);
    PlanWithin(gs[1..], rs[1..]);
    TraceConcat(gc, hc, a);
    ApartConcat(g, h, a);
    if t == 0 {
      CopiesMiss(AllRuns(h), hc, a);
      TraceStays(hc, a);
      TraceInside(AllRuns(g), gc, a);
      ApartConcat(g, h, Trace(gc, a));
      LoadFirst(mem, file, gp, hp, Trace(gc, a));
    } else {
      FlatReach(gs[1..], t - 1, a);
      TraceInside(AllRuns(h), hc, a);
      ApartConcat(g, h, a');
      CopiesMiss(AllRuns(g), gc, a');
      TraceStays(gc, a');
      LoadSecond(mem, file, gp, hp, a');
      PlanLocal(gs[1..], rs[1..], mem, file, t - 1, a);
    }
  }

  lemma {:induction false} FlatReach(gs: seq<seq<Blk>>, t: nat, a: int)
    requires AllOk(Flat(gs)) && t < |gs| && AllOk(gs[t]) && Reached(AllRuns(gs[t]), a)
    ensures Reached(AllRuns(Flat(gs)), a)
    decreases |gs|
  {
    hide Ok, Reached, AllRuns;
    AllOkParts(gs[0], Flat(gs[1..]));
    ReachedConcat(gs[0], Flat(gs[1..]), a);
    if t > 0 { FlatReach(gs[1..], t - 1, a); }
  }

  lemma AllOkParts(g: seq<Blk>, h: seq<Blk>)
    requires AllOk(g + h)
    ensures AllOk(g) && AllOk(h)
  {
    hide Ok;
    forall i | 0 <= i < |g| ensures Ok(g[i]) { assert (g + h)[i] == g[i]; }
    forall i | 0 <= i < |h| ensures Ok(h[i]) { assert (g + h)[|g| + i] == h[i]; }
  }

  lemma {:induction false} FlatAt(gs: seq<seq<Blk>>, i: nat) returns (t: nat, j: nat)
    requires i < |Flat(gs)|
    ensures t < |gs| && j < |gs[t]| && Flat(gs)[i] == gs[t][j]
    decreases |gs|
  {
    if i < |gs[0]| {
      t, j := 0, i;
    } else {
      t, j := FlatAt(gs[1..], i - |gs[0]|);
      t := t + 1;
    }
  }

  lemma {:induction false} FlatHas(gs: seq<seq<Blk>>, t: nat, j: nat) returns (i: nat)
    requires t < |gs| && j < |gs[t]|
    ensures i < |Flat(gs)| && Flat(gs)[i] == gs[t][j]
    decreases |gs|
  {
    if t == 0 {
      i := j;
    } else {
      i := FlatHas(gs[1..], t - 1, j);
      i := i + |gs[0]|;
    }
  }

  lemma {:induction false} GroupApart(gs: seq<seq<Blk>>, t: nat)
    requires AllOk(Flat(gs)) && DestsApart(Flat(gs)) && t < |gs|
    ensures AllOk(gs[t]) && DestsApart(gs[t])
    decreases |gs|
  {
    hide Ok, DestsApart;
    ApartConcat(gs[0], Flat(gs[1..]), 0);
    if t > 0 { GroupApart(gs[1..], t - 1); }
  }

  /** Every byte that an intersection stands for is at its destination after the transfers and the copies. */
  ghost predicate PlanServed(gs: seq<seq<Blk>>, rs: seq<seq<Piece>>, mem: Store, file: Store)
    requires PlanOk(gs, rs) && AllOk(Flat(gs))
  {
    forall i, a, f :: 0 <= i < |Flat(gs)| && Brings(Flat(gs)[i], a, f) ==>
      Load(mem, file, PlanPieces(gs, rs), Trace(PlanCopies(gs, rs), a)) == file(f)
  }

  lemma OneServed(gs: seq<seq<Blk>>, rs: seq<seq<Piece>>, mem: Store, file: Store, i: nat, a: int, f: int)
    requires PlanOk(gs, rs) && CleanGroups(gs, rs) && AllOk(Flat(gs)) && DestsApart(Flat(gs))
    requires i < |Flat(gs)| && Brings(Flat(gs)[i], a, f)
    ensures Load(mem, file, PlanPieces(gs, rs), Trace(PlanCopies(gs, rs), a)) == file(f)
  {
    hide Ok, GroupPieces, GroupCopies, GroupOk, Reached, AllRuns, Brings, DestsApart, CleanEnds, Load, Trace;
    var t, j := FlatAt(gs, i);
    GroupApart(gs, t);
    assert GroupOk(gs[t], rs[t]);
    BringsReach(gs[t], j, a, f);
    PlanLocal(gs, rs, mem, file, t, a);
    GroupServes(gs[t], rs[t], mem, file, j, a, f);
  }

  /** A group without clean ends: for some contents one of its bytes is not at its destination. */
  lemma GroupFails(g: seq<Blk>, r: seq<Piece>) returns (mem: Store, file: Store, j: nat, a: int, f: int)
    requires GroupOk(g, r) && DestsApart(g) && |g| > 1 && !CleanEnds(r)
    ensures j < |g| && Brings(g[j], a, f) && Load(mem, file, GroupPieces(g, r), Trace(GroupCopies(g, r), a)) != file(f)
  {
    hide Ok, RunNo, RunCount, Runs, Trimmed, Overlaps, CleanEnds, Spread, Load, DestsApart, CopyAll, Brings;
    GroupSpread(g);
    RunsLong(g);
    SpreadPermuted(AllRuns(g), r);
    TrimServes(r);
    mem, file :| !Served(r, mem, file);
    var l, x :| 0 <= l < |r| && InRange(r[l], x) && CopyAll(mem, file, Trimmed(r), Overlaps(r), Address(r[l], x)) != file(x);
    InOrderMembers(g, r, r[l]);
    var t;
    j, t := AllRunsMember(g, r[l]);
    a, f := Address(r[l], x), x;
    RunBrings(g[j], t, a);
    CopyTraces(mem, file, Trimmed(r), Overlaps(r), a);
  }

  /** After the transfers and the copies of the whole plan every destination holds its byte of the file, for whatever
      the file and the memory hold, exactly if the groups have clean ends. */
  lemma PlanServes(gs: seq<seq<Blk>>, rs: seq<seq<Piece>>)
    requires PlanOk(gs, rs) && AllOk(Flat(gs)) && DestsApart(Flat(gs))
    ensures CleanGroups(gs, rs) <==> forall mem: Store, file: Store :: PlanServed(gs, rs, mem, file)
  {
    hide Ok, GroupPieces, GroupCopies, GroupOk, Reached, AllRuns, Brings, DestsApart, CleanEnds, Load, Trace;
    if CleanGroups(gs, rs) {
      forall mem: Store, file: Store ensures PlanServed(gs, rs, mem, file)
      {
        forall i, a, f | 0 <= i < |Flat(gs)| && Brings(Flat(gs)[i], a, f)
          ensures Load(mem, file, PlanPieces(gs, rs), Trace(PlanCopies(gs, rs), a)) == file(f)
        {
          OneServed(gs, rs, mem, file, i, a, f);
        }
      }
    } else {
      var mem, file, i, a, f := PlanFails(gs, rs);
      assert !PlanServed(gs, rs, mem, file);
    }
  }

  lemma PlanFails(gs: seq<seq<Blk>>, rs: seq<seq<Piece>>) returns (mem: Store, file: Store, i: nat, a: int, f: int)
    requires PlanOk(gs, rs) && AllOk(Flat(gs)) && DestsApart(Flat(gs)) && !CleanGroups(gs, rs)
    ensures i < |Flat(gs)| && Brings(Flat(gs)[i], a, f) && Load(mem, file, PlanPieces(gs, rs), Trace(PlanCopies(gs, rs), a)) != file(f)
  {
    hide Ok, GroupPieces, GroupCopies, GroupOk, Reached, AllRuns, Brings, DestsApart, CleanEnds, Load, Trace;
    var t :| 0 <= t < |gs| && |gs[t]| > 1 && !CleanEnds(rs[t]);
    GroupApart(gs, t);
    assert GroupOk(gs[t], rs[t]);
    var j;
    mem, file, j, a, f := GroupFails(gs[t], rs[t]);
    BringsReach(gs[t], j, a, f);
    PlanLocal(gs, rs, mem, file, t, a);
    i := FlatHas(gs, t, j);
  }

  lemma BringsReach(g: seq<Blk>, i: nat, a: int, f: int)
    requires AllOk(g) && i < |g| && Brings(g[i], a, f)
    ensures Reached(AllRuns(g), a)
  {
    hide Ok, Brings, AllRuns, Reached;
    assert Touches(g[i], a);
    GroupTouches(g, a);
  }

  // ----- requests -----

  /** No coordinate was written twice. */
  ghost predicate NoneTwice(es: seq<Entry>)
  {
    forall j: nat, m: nat, j': nat, m': nat, x: Coord :: CoverAt(es, j, m, x) && CoverAt(es, j', m', x) ==> j == j' && m == m'
  }

  /** An intersection that touches an address of the buffer brings a byte of an element that its entry block covers. */
  lemma TouchIsElement(n: nat, esize: nat, es: seq<Entry>, qs: seq<Block>, xbuf: int, h: Isect, i: nat, j: nat, m: nat, a: int)
      returns (x: Coord, k: nat)
    requires Searchable(n, esize, es, qs) && IsHit(n, esize, es, qs, h, i, j, m)
    requires Ok(AsBlk(h, esize, xbuf)) && Touches(AsBlk(h, esize, xbuf), a)
    ensures i < |qs| && InBoxOk(n, qs[i], x) && CoverAt(es, j, m, x) && k < esize && a == BufferAt(qs, esize, xbuf, i, x, k)
  {
    hide DataApart, Meets, Linear, FileAt, MemAt, Soff, IsHit;
    var f :| Brings(AsBlk(h, esize, xbuf), a, f);
    var u: Coord, k': nat :| ByteAt(AsBlk(h, esize, xbuf), a, f, u, k');
    HitRank(n, esize, es, qs, h, i, j, m);
    FileWithin(n, esize, es, qs, xbuf, h, i, j, m, u);
    x, k := Add(Common(SelBlock(SelAt(es, j, m)), qs[i]).start, u), k';
  }

  /** Then no two intersections go to the same place, whether the requests overlap or not. */
  lemma FoundDests(n: nat, esize: nat, es: seq<Entry>, qs: seq<Block>, xbuf: int, bs: seq<Blk>)
    requires Searchable(n, esize, es, qs) && NoneTwice(es) && Found(n, esize, es, qs, xbuf, bs)
    ensures AllOk(bs) && DestsApart(bs)
  {
    hide IsHit, Searchable, Found, Ok, Touches, CoverAt;
    SearchableRanks(n, esize, es, qs);
    FoundOnce(n, esize, es, qs, xbuf, bs);
    forall s, t, a | 0 <= s < |bs| && 0 <= t < |bs| && s != t && Touches(bs[s], a) ensures !Touches(bs[t], a)
    {
      if Touches(bs[t], a) { SameDest(n, esize, es, qs, xbuf, bs, s, t, a); }
    }
  }

  lemma SameDest(n: nat, esize: nat, es: seq<Entry>, qs: seq<Block>, xbuf: int, bs: seq<Blk>, s: nat, t: nat, a: int)
    requires Searchable(n, esize, es, qs) && NoneTwice(es) && Found(n, esize, es, qs, xbuf, bs) && AllOk(bs)
    requires s < |bs| && t < |bs| && Touches(bs[s], a) && Touches(bs[t], a)
    ensures bs[s] == bs[t]
  {
    hide IsHit, Searchable, Found, Ok, Touches, CoverAt, BufferAt;
    SearchableRanks(n, esize, es, qs);
    var i, j, m := FoundSource(n, esize, es, qs, xbuf, bs, s);
    var i', j', m' := FoundSource(n, esize, es, qs, xbuf, bs, t);
    var x, k := TouchIsElement(n, esize, es, qs, xbuf, bs[s].isect, i, j, m, a);
    var x', k' := TouchIsElement(n, esize, es, qs, xbuf, bs[t].isect, i', j', m', a);
    BufferInjective(n, qs, esize, xbuf, i, x, k, i', x', k');
    SameHit(n, esize, es, qs, bs[s].isect, bs[t].isect, i, j, m);
  }

  lemma GroupsFlat(bs: seq<Blk>)
    requires AllOk(bs)
    ensures Flat(Groups(bs, 0)) == bs
  {
    FlatGroups(bs, 0);
  }

  lemma UntouchedStays(bs: seq<Blk>, rs: seq<seq<Piece>>, mem: Store, file: Store, a: int)
    requires AllOk(bs) && PlanOk(Groups(bs, 0), rs) && NothingFrom(bs, 0, a)
    ensures Load(mem, file, PlanPieces(Groups(bs, 0), rs), Trace(PlanCopies(Groups(bs, 0), rs), a)) == mem(a)
  {
    hide Ok, Groups, PlanPieces, PlanCopies, Touches, AllRuns, Reached, CopyInside, Load, Trace;
    GroupsFlat(bs);
    PlanWithin(Groups(bs, 0), rs);
    GroupTouches(bs, a);
    CopiesMiss(AllRuns(bs), PlanCopies(Groups(bs, 0), rs), a);
    TraceStays(PlanCopies(Groups(bs, 0), rs), a);
    LoadNone(mem, file, PlanPieces(Groups(bs, 0), rs), a);
  }

  /** Byte k of the element at x of request i holds what it should: the byte of the entry block that covers it, or,
      if no entry covers it, what was there. */
  ghost predicate ElementServed(n: nat, esize: nat, es: seq<Entry>, qs: seq<Block>, xbuf: int, bs: seq<Blk>, rs: seq<seq<Piece>>,
      mem: Store, file: Store, i: nat, x: Coord, k: nat)
    requires AllOk(bs) && PlanOk(Groups(bs, 0), rs) && Rank(n, qs) && i < |qs| && InBoxOk(n, qs[i], x)
  {
    var a := BufferAt(qs, esize, xbuf, i, x, k);
    var b := CopyAll(mem, file, PlanPieces(Groups(bs, 0), rs), PlanCopies(Groups(bs, 0), rs), a);
    ((forall j: nat, m: nat :: !CoverAt(es, j, m, x)) ==> b == mem(a)) &&
    forall j: nat, m: nat :: CoverAt(es, j, m, x) ==> b == file(DataAt(es, esize, j, m, x) + k)
  }

  ghost predicate BatchServed(n: nat, esize: nat, es: seq<Entry>, qs: seq<Block>, xbuf: int, bs: seq<Blk>, rs: seq<seq<Piece>>,
      mem: Store, file: Store)
    requires AllOk(bs) && PlanOk(Groups(bs, 0), rs) && Rank(n, qs)
  {
    forall i: nat, x: Coord, k: nat :: i < |qs| && InBoxOk(n, qs[i], x) && k < esize ==>
      ElementServed(n, esize, es, qs, xbuf, bs, rs, mem, file, i, x, k)
  }

  lemma ElementIsServed(n: nat, esize: nat, es: seq<Entry>, qs: seq<Block>, xbuf: int, bs: seq<Blk>, rs: seq<seq<Piece>>,
      mem: Store, file: Store, i: nat, x: Coord, k: nat)
    requires Searchable(n, esize, es, qs) && NoneTwice(es) && Found(n, esize, es, qs, xbuf, bs)
    requires AllOk(bs) && PlanOk(Groups(bs, 0), rs) && CleanGroups(Groups(bs, 0), rs)
    requires i < |qs| && InBoxOk(n, qs[i], x) && k < esize
    ensures ElementServed(n, esize, es, qs, xbuf, bs, rs, mem, file, i, x, k)
  {
    hide Searchable, NoneTwice, Found, Ok, Brings, CoverAt, Groups, PlanPieces, PlanCopies, CleanGroups, DestsApart, Load, CopyAll, Trace, IsHit, PlanOk;
    SearchableRanks(n, esize, es, qs);
    var a := BufferAt(qs, esize, xbuf, i, x, k);
    var gs := Groups(bs, 0);
    PlanOkCounts(gs, rs);
    CopyTraces(mem, file, PlanPieces(gs, rs), PlanCopies(gs, rs), a);
    if forall j: nat, m: nat :: !CoverAt(es, j, m, x) {
      UncoveredUntouched(n, esize, es, qs, xbuf, bs, i, x, k);
      UntouchedStays(bs, rs, mem, file, a);
    }
    forall j: nat, m: nat | CoverAt(es, j, m, x)
      ensures CopyAll(mem, file, PlanPieces(gs, rs), PlanCopies(gs, rs), a) == file(DataAt(es, esize, j, m, x) + k)
    {
      var h := CoverBrings(n, esize, es, qs, xbuf, i, x, k, j, m);
      FoundMember(n, esize, es, qs, xbuf, bs, AsBlk(h, esize, xbuf));
      var t :| 0 <= t < |bs| && bs[t] == AsBlk(h, esize, xbuf);
      FoundDests(n, esize, es, qs, xbuf, bs);
      GroupsFlat(bs);
      OneServed(gs, rs, mem, file, t, a, DataAt(es, esize, j, m, x) + k);
    }
  }

  /** Where a group has no clean ends, some element of some request does not get its byte, for some contents. */
  lemma BatchFails(n: nat, esize: nat, es: seq<Entry>, qs: seq<Block>, xbuf: int, bs: seq<Blk>, rs: seq<seq<Piece>>)
      returns (mem: Store, file: Store, i: nat, x: Coord, k: nat)
    requires Searchable(n, esize, es, qs) && NoneTwice(es) && Found(n, esize, es, qs, xbuf, bs)
    requires AllOk(bs) && PlanOk(Groups(bs, 0), rs) && !CleanGroups(Groups(bs, 0), rs)
    ensures i < |qs| && InBoxOk(n, qs[i], x) && k < esize && !ElementServed(n, esize, es, qs, xbuf, bs, rs, mem, file, i, x, k)
  {
    hide Searchable, NoneTwice, Found, Ok, Brings, CoverAt, Groups, PlanPieces, PlanCopies, CleanGroups, DestsApart, Load, CopyAll, Trace, IsHit, PlanOk;
    SearchableRanks(n, esize, es, qs);
    FoundDests(n, esize, es, qs, xbuf, bs);
    GroupsFlat(bs);
    var gs := Groups(bs, 0);
    PlanOkCounts(gs, rs);
    var t, a, f;
    mem, file, t, a, f := PlanFails(gs, rs);
    CopyTraces(mem, file, PlanPieces(gs, rs), PlanCopies(gs, rs), a);
    var j, m;
    i, j, m := FoundSource(n, esize, es, qs, xbuf, bs, t);
    assert Touches(bs[t], a);
    x, k := TouchIsElement(n, esize, es, qs, xbuf, bs[t].isect, i, j, m, a);
    BringsCover(n, esize, es, qs, xbuf, i, x, k, bs[t].isect, i, j, m, f);
  }

  /** A batch of requests that may overlap, of data of which no coordinate was written twice: after the transfers and
      the copies every element of every request holds the bytes of the entry block that covers it, and elements that no
      entry covers keep their fill value, for whatever the file and the memory hold, exactly if the groups have clean
      ends. */
  lemma BatchIsServed(n: nat, esize: nat, es: seq<Entry>, qs: seq<Block>, xbuf: int, bs: seq<Blk>, rs: seq<seq<Piece>>)
    requires Searchable(n, esize, es, qs) && NoneTwice(es) && Found(n, esize, es, qs, xbuf, bs)
    requires AllOk(bs) && PlanOk(Groups(bs, 0), rs)
    ensures CleanGroups(Groups(bs, 0), rs) <==> forall mem: Store, file: Store :: BatchServed(n, esize, es, qs, xbuf, bs, rs, mem, file)
  {
    hide Searchable, NoneTwice, Found, Ok, CoverAt, Groups, CleanGroups, PlanOk, ElementServed;
    SearchableRanks(n, esize, es, qs);
    PlanOkCounts(Groups(bs, 0), rs);
    if CleanGroups(Groups(bs, 0), rs) {
      forall mem: Store, file: Store ensures BatchServed(n, esize, es, qs, xbuf, bs, rs, mem, file)
      {
        forall i: nat, x: Coord, k: nat | i < |qs| && InBoxOk(n, qs[i], x) && k < esize
          ensures ElementServed(n, esize, es, qs, xbuf, bs, rs, mem, file, i, x, k)
        {
          ElementIsServed(n, esize, es, qs, xbuf, bs, rs, mem, file, i, x, k);
        }
      }
    } else {
      var mem, file, i, x, k := BatchFails(n, esize, es, qs, xbuf, bs, rs);
      assert !BatchServed(n, esize, es, qs, xbuf, bs, rs, mem, file);
    }
  }

  lemma PlanOkCounts(gs: seq<seq<Blk>>, rs: seq<seq<Piece>>)
    requires PlanOk(gs, rs)
    ensures |rs| == |gs| && GroupsOk(gs)
  {
  }
}
