/** Applying the planned transfers in order: the intersection that lies furthest on in the file decides. */
module ReadWins {
  import opened Grid
  import opened Bytes
  import opened IndexSearch
  import opened SortOffsets
  import opened Trim
  import opened ReadPlan
  import opened ReadGroups
  import opened ReadTypes
  import opened ReadLegal

  /** Intersection b brings the byte at file offset f to memory address a. */
  ghost predicate Brings(b: Blk, a: int, f: int)
    requires Ok(b)
  {
    exists u: Coord, k: nat :: ByteAt(b, a, f, u, k)
  }

  /** It is byte k of the element at u. */
  ghost predicate ByteAt(b: Blk, a: int, f: int, u: Coord, k: nat)
    requires Ok(b)
  {
    InBounds(b.isect.count, u) && k < b.esize && a == MemAt(b, u) + k && f == FileAt(b, u) + k
  }

  ghost predicate Touches(b: Blk, a: int)
    requires Ok(b)
  {
    exists f :: Brings(b, a, f)
  }

  /** Two intersections have no byte of the file in common. */
  ghost predicate NoShare(a: Blk, b: Blk)
    requires Ok(a) && Ok(b)
  {
    forall u: Coord, v: Coord :: InBounds(a.isect.count, u) && InBounds(b.isect.count, v) ==> ElementsApart(a, u, b, v)
  }

  ghost predicate ElementsApart(a: Blk, u: Coord, b: Blk, v: Coord)
    requires Ok(a) && Ok(b) && |u| == Rk(a) && |v| == Rk(b)
  {
    FileAt(a, u) + a.esize <= FileAt(b, v) || FileAt(b, v) + b.esize <= FileAt(a, u)
  }

  ghost predicate AllApart(bs: seq<Blk>)
    requires AllOk(bs)
  {
    forall i, j :: 0 <= i < j < |bs| ==> NoShare(bs[i], bs[j])
  }

  // ----- pieces that do not overlap are not trimmed -----

  predicate Clear(p: Piece, q: Piece) { p.len > 0 && q.len > 0 && (End(p) <= q.foff || End(q) <= p.foff) }

  ghost predicate AllClear(s: seq<Piece>)
  {
    (forall i :: 0 <= i < |s| ==> s[i].len > 0) && forall i, j :: 0 <= i < j < |s| ==> Clear(s[i], s[j])
  }

  lemma {:induction false} CountOnce(s: seq<Piece>, p: Piece, i: nat)
    requires AllClear(s) && i < |s| && s[i] == p
    ensures multiset(s)[p] == 1
    decreases |s|
  {
    assert s == [s[0]] + s[1..];
    if i == 0 {
      forall j | 0 <= j < |s[1..]| ensures s[1..][j] != p { assert Clear(s[0], s[j + 1]); }
      assert p !in s[1..];
    } else {
      assert Clear(s[0], s[i]);
      CountOnce(s[1..], p, i - 1);
    }
  }

  lemma {:induction false} TwiceCounts(s: seq<Piece>, i: nat, j: nat)
    requires i < j < |s| && s[i] == s[j]
    ensures multiset(s)[s[i]] >= 2
  {
    assert s == s[..i] + [s[i]] + s[i + 1..j] + [s[j]] + s[j + 1..];
  }

  /** A sorted permutation of ranges that do not overlap is an increasing chain. */
  lemma SortedClear(s: seq<Piece>, r: seq<Piece>)
    requires AllClear(s) && multiset(r) == multiset(s) && SortedRange(r, 0, |r|)
    ensures forall k, l :: 0 <= k < l < |r| ==> End(r[k]) <= r[l].foff
  {
    forall k, l | 0 <= k < l < |r| ensures End(r[k]) <= r[l].foff
    {
      assert r[k] in multiset(r) && r[l] in multiset(r);
      var i :| 0 <= i < |s| && s[i] == r[k];
      var j :| 0 <= j < |s| && s[j] == r[l];
      if i == j {
        TwiceCounts(r, k, l);
        CountOnce(s, r[k], i);
        assert false;
      } else if i < j {
        assert Clear(s[i], s[j]);
      } else {
        assert Clear(s[j], s[i]);
      }
    }
  }

  lemma ClearConcat(a: seq<Piece>, b: seq<Piece>)
    requires AllClear(a) && AllClear(b) && forall p, q :: p in a && q in b ==> Clear(p, q)
    ensures AllClear(a + b)
  {
    var s := a + b;
    forall i, j | 0 <= i < j < |s| ensures Clear(s[i], s[j])
    {
      if i < |a| <= j { assert s[i] in a && s[j] in b; }
    }
  }

  lemma RunsClear(b: Blk)
    requires Ok(b)
    ensures AllClear(Runs(b))
  {
    hide FileAt, RunNo, RunCount;
    forall t | 0 <= t < |Runs(b)| ensures Runs(b)[t].len > 0 { RunInside(b, t); }
    forall i, j | 0 <= i < j < |Runs(b)| ensures Clear(Runs(b)[i], Runs(b)[j]) { RunsOrdered(b, i, j); }
  }

  lemma RunsOfApart(a: Blk, t: nat, b: Blk, t': nat)
    requires Ok(a) && Ok(b) && NoShare(a, b) && t < RunCount(a) && t' < RunCount(b)
    ensures Clear(RunNo(a, t), RunNo(b, t'))
  {
    hide FileAt, MemAt, RunNo, RunCount, NoShare;
    var p, q := RunNo(a, t), RunNo(b, t');
    RunInside(a, t);
    RunInside(b, t');
    if End(p) > q.foff && End(q) > p.foff {
      var x := if p.foff < q.foff then q.foff else p.foff;
      SharedByte(a, t, b, t', x);
    }
  }

  lemma SharedByte(a: Blk, t: nat, b: Blk, t': nat, x: int)
    requires Ok(a) && Ok(b) && t < RunCount(a) && t' < RunCount(b) && InRange(RunNo(a, t), x) && InRange(RunNo(b, t'), x)
    ensures !NoShare(a, b)
  {
    hide FileAt, MemAt, RunNo, RunCount;
    var p, q := RunNo(a, t), RunNo(b, t');
    var u, k := ByteOfRun(a, t, p.moff + (x - p.foff));
    var v, m := ByteOfRun(b, t', q.moff + (x - q.foff));
    assert !ElementsApart(a, u, b, v);
  }

  lemma {:induction false} GroupClear(g: seq<Blk>)
    requires AllOk(g) && AllApart(g)
    ensures AllClear(AllRuns(g))
    decreases |g|
  {
    hide Ok, Runs, NoShare, RunCount, RunNo;
    if g != [] {
      GroupClear(g[1..]);
      RunsClear(g[0]);
      forall p, q | p in Runs(g[0]) && q in AllRuns(g[1..]) ensures Clear(p, q)
      {
        FirstAgainst(g, p, q);
      }
      ClearConcat(Runs(g[0]), AllRuns(g[1..]));
    }
  }

  lemma FirstAgainst(g: seq<Blk>, p: Piece, q: Piece)
    requires AllOk(g) && AllApart(g) && g != [] && p in Runs(g[0]) && q in AllRuns(g[1..])
    ensures Clear(p, q)
  {
    hide Ok, NoShare, RunCount, RunNo;
    var t :| 0 <= t < |Runs(g[0])| && Runs(g[0])[t] == p;
    var i, t' := AllRunsMember(g[1..], q);
    RunsOfApart(g[0], t, g[i + 1], t');
  }

  /** The pieces of a group whose members share nothing are exactly its runs, and no copy is recorded. */
  lemma GroupUntrimmed(g: seq<Blk>, r: seq<Piece>)
    requires GroupOk(g, r) && AllApart(g)
    ensures GroupCopies(g, r) == []
    ensures forall p :: p in GroupPieces(g, r) <==> p in AllRuns(g)
  {
    hide Runs, Trimmed, Overlaps, NoShare, Ok;
    if |g| == 1 {
      assert AllRuns(g) == Runs(g[0]) + [] by { assert g[1..] == []; }
    } else {
      GroupClear(g);
      SortedClear(AllRuns(g), r);
      NothingToTrim(r);
      forall p ensures p in r <==> p in AllRuns(g) { InOrderMembers(g, r, p); }
    }
  }

  // ----- transfers in order -----

  predicate Hits(p: Piece, a: int, f: int) { Into(p, a) && f == p.foff + (a - p.moff) }

  lemma {:induction false} LoadNone(mem: Store, file: Store, ps: seq<Piece>, a: int)
    requires forall p :: p in ps ==> !Into(p, a)
    ensures Load(mem, file, ps, a) == mem(a)
    decreases |ps|
  {
    if ps != [] {
      assert ps[|ps| - 1] in ps;
      LoadNone(mem, file, ps[..|ps| - 1], a);
    }
  }

  lemma {:induction false} LoadSame(mem: Store, file: Store, ps: seq<Piece>, a: int, f: int)
    requires (exists p :: p in ps && Into(p, a)) && forall p :: p in ps && Into(p, a) ==> Hits(p, a, f)
    ensures Load(mem, file, ps, a) == file(f)
    decreases |ps|
  {
    var q, t := ps[|ps| - 1], ps[..|ps| - 1];
    assert ps == t + [q];
    if !Into(q, a) { LoadSame(mem, file, t, a, f); }
  }

  lemma {:induction false} LoadConcat(mem: Store, file: Store, a: seq<Piece>, b: seq<Piece>, x: int)
    ensures (forall p :: p in b ==> !Into(p, x)) ==> Load(mem, file, a + b, x) == Load(mem, file, a, x)
    ensures (exists p :: p in b && Into(p, x)) ==> Load(mem, file, a + b, x) == Load(mem, file, b, x)
    decreases |b|
  {
    if b == [] {
      assert a + b == a;
    } else {
      var q, t := b[|b| - 1], b[..|b| - 1];
      assert (a + b)[..|a + b| - 1] == a + t && (a + b)[|a + b| - 1] == q && b == t + [q];
      LoadConcat(mem, file, a, t, x);
    }
  }

  lemma RunBrings(b: Blk, t: nat, a: int)
    requires Ok(b) && t < RunCount(b) && Into(RunNo(b, t), a)
    ensures Brings(b, a, RunNo(b, t).foff + (a - RunNo(b, t).moff))
  {
    hide FileAt, MemAt, RunNo, RunCount;
    var u, k := ByteOfRun(b, t, a);
    assert ByteAt(b, a, RunNo(b, t).foff + (a - RunNo(b, t).moff), u, k);
  }

  lemma BringsRun(b: Blk, a: int, f: int) returns (t: nat)
    requires Ok(b) && Brings(b, a, f)
    ensures t < RunCount(b) && Hits(RunNo(b, t), a, f)
  {
    hide FileAt, MemAt, RunNo, RunCount;
    var u: Coord, k: nat :| ByteAt(b, a, f, u, k);
    t := RunOfByte(b, u, k);
  }

  /** What a group brings to an address. */
  lemma GroupBrings(g: seq<Blk>, r: seq<Piece>, a: int)
    requires GroupOk(g, r) && AllApart(g)
    ensures forall p :: p in GroupPieces(g, r) && Into(p, a) ==> exists i :: 0 <= i < |g| && Brings(g[i], a, p.foff + (a - p.moff))
    ensures (exists i :: 0 <= i < |g| && Touches(g[i], a)) <==> exists p :: p in GroupPieces(g, r) && Into(p, a)
  {
    hide Ok, NoShare, RunNo, RunCount, GroupPieces, Brings, AllRuns, InFileOrder, AllApart;
    GroupUntrimmed(g, r);
    forall p | p in GroupPieces(g, r) && Into(p, a) ensures exists i :: 0 <= i < |g| && Brings(g[i], a, p.foff + (a - p.moff))
    {
      var i, t := AllRunsMember(g, p);
      RunBrings(g[i], t, a);
    }
    if i :| 0 <= i < |g| && Touches(g[i], a) {
      var f :| Brings(g[i], a, f);
      var t := BringsRun(g[i], a, f);
      MemberAllRuns(g, i, t);
      assert RunNo(g[i], t) in GroupPieces(g, r);
    }
    if p :| p in GroupPieces(g, r) && Into(p, a) {
      var i :| 0 <= i < |g| && Brings(g[i], a, p.foff + (a - p.moff));
      assert Touches(g[i], a);
    }
  }

  // ----- the whole plan -----

  /** At address a, intersections at the same position in the file bring the same byte. */
  ghost predicate SameBaseSameByte(bs: seq<Blk>, a: int)
    requires AllOk(bs)
  {
    forall i, j, f, g :: 0 <= i < |bs| && 0 <= j < |bs| && Base(bs[i]) == Base(bs[j]) && Brings(bs[i], a, f) && Brings(bs[j], a, g) ==> f == g
  }

  /** Block i brings byte f to address a, and no block from s on that touches a lies further on in the file. */
  ghost predicate Wins(bs: seq<Blk>, s: nat, i: nat, a: int, f: int)
    requires AllOk(bs)
  {
    s <= i < |bs| && Brings(bs[i], a, f) && forall j :: s <= j < |bs| && Touches(bs[j], a) ==> Base(bs[j]) <= Base(bs[i])
  }

  lemma OrderedBases(bs: seq<Blk>, i: nat, j: nat)
    requires AllOk(bs) && InOrder(bs) && i <= j < |bs|
    ensures Base(bs[i]) <= Base(bs[j])
  {
    hide Less;
    assert i < j ==> !Precedes(bs[j], bs[i]);
  }

  ghost predicate NothingFrom(bs: seq<Blk>, s: nat, a: int)
    requires AllOk(bs)
  {
    forall j :: s <= j < |bs| ==> !Touches(bs[j], a)
  }

  lemma GroupOfPlan(bs: seq<Blk>, s: nat, rs: seq<seq<Piece>>)
    requires AllOk(bs) && s < |bs| && AllApart(bs) && PlanOk(Groups(bs, s), rs)
    ensures var e := GroupEnd(bs, s, s);
            |rs| > 0 && GroupOk(bs[s..e], rs[0]) && AllApart(bs[s..e]) && PlanOk(Groups(bs, e), rs[1..]) &&
            PlanPieces(Groups(bs, s), rs) == GroupPieces(bs[s..e], rs[0]) + PlanPieces(Groups(bs, e), rs[1..])
  {
    hide Ok, NoShare, GroupEnd, InFileOrder, GroupPieces;
    var e := GroupEnd(bs, s, s);
    assert GroupOk(Groups(bs, s)[0], rs[0]);
    assert Groups(bs, s)[1..] == Groups(bs, e);
  }

  /** Nothing touches the address: no piece does. */
  lemma {:induction false} NoneInPlan(bs: seq<Blk>, s: nat, rs: seq<seq<Piece>>, a: int)
    requires AllOk(bs) && AllApart(bs) && PlanOk(Groups(bs, s), rs)
    ensures NothingFrom(bs, s, a) ==> forall p :: p in PlanPieces(Groups(bs, s), rs) ==> !Into(p, a)
    ensures !NothingFrom(bs, s, a) ==> exists p :: p in PlanPieces(Groups(bs, s), rs) && Into(p, a)
    decreases |bs| - s
  {
    hide Ok, GroupEnd, GroupOk, GroupPieces, Touches, AllApart;
    if s < |bs| {
      var e := GroupEnd(bs, s, s);
      GroupOfPlan(bs, s, rs);
      NoneInPlan(bs, e, rs[1..], a);
      GroupBrings(bs[s..e], rs[0], a);
      TouchesSplit(bs, s, e, a);
    }
  }

  lemma TouchesSplit(bs: seq<Blk>, s: nat, e: nat, a: int)
    requires AllOk(bs) && s <= e <= |bs|
    ensures NothingFrom(bs, s, a) <==> !(exists i :: 0 <= i < |bs[s..e]| && Touches(bs[s..e][i], a)) && NothingFrom(bs, e, a)
  {
    hide Ok, Touches;
    if NothingFrom(bs, s, a) {
      forall i | 0 <= i < |bs[s..e]| ensures !Touches(bs[s..e][i], a) { assert bs[s..e][i] == bs[s + i]; }
    }
    if !(exists i :: 0 <= i < |bs[s..e]| && Touches(bs[s..e][i], a)) && NothingFrom(bs, e, a) {
      forall j | s <= j < |bs| ensures !Touches(bs[j], a)
      {
        if j < e { assert bs[s..e][j - s] == bs[j]; }
      }
    }
  }

  /** In a group, all that touches the address brings the winner's byte. */
  lemma GroupLoads(bs: seq<Blk>, s: nat, e: nat, r: seq<Piece>, mem: Store, file: Store, a: int, i: nat, f: int)
    requires AllOk(bs) && SameBaseSameByte(bs, a) && s <= i < e <= |bs| && GroupOk(bs[s..e], r) && AllApart(bs[s..e])
    requires Brings(bs[i], a, f) && forall t :: s <= t < e ==> Base(bs[t]) == Base(bs[i])
    ensures Load(mem, file, GroupPieces(bs[s..e], r), a) == file(f)
  {
    hide Ok, GroupPieces, Brings, AllApart, GroupOk, Load;
    var g := bs[s..e];
    GroupBrings(g, r, a);
    assert g[i - s] == bs[i] && Touches(g[i - s], a);
    forall p | p in GroupPieces(g, r) && Into(p, a) ensures Hits(p, a, f)
    {
      var t :| 0 <= t < |g| && Brings(g[t], a, p.foff + (a - p.moff));
      assert g[t] == bs[s + t];
    }
    LoadSame(mem, file, GroupPieces(g, r), a, f);
  }

  lemma GroupBases(bs: seq<Blk>, s: nat, t: nat)
    requires AllOk(bs) && s < |bs| && s <= t < GroupEnd(bs, s, s)
    ensures Base(bs[t]) == Base(bs[s])
  {
    hide Ok, GroupEnd;
    GroupSources(bs, s, s, t);
  }

  lemma {:induction false} PlanLoads(bs: seq<Blk>, s: nat, rs: seq<seq<Piece>>, mem: Store, file: Store, a: int, i: nat, f: int)
    requires AllOk(bs) && InOrder(bs) && AllApart(bs) && SameBaseSameByte(bs, a) && PlanOk(Groups(bs, s), rs)
    requires s < |bs| && Wins(bs, s, i, a, f)
    ensures Load(mem, file, PlanPieces(Groups(bs, s), rs), a) == file(f)
    decreases |bs| - s
  {
    hide Ok, GroupEnd, GroupOk, GroupPieces, Brings, AllApart, Load, InOrder, PlanPieces, Groups;
    var e := GroupEnd(bs, s, s);
    GroupOfPlan(bs, s, rs);
    var here, rest := GroupPieces(bs[s..e], rs[0]), PlanPieces(Groups(bs, e), rs[1..]);
    LoadConcat(mem, file, here, rest, a);
    NoneInPlan(bs, e, rs[1..], a);
    if NothingFrom(bs, e, a) {
      assert Touches(bs[i], a);
      forall t | s <= t < e ensures Base(bs[t]) == Base(bs[i])
      {
        GroupBases(bs, s, t);
        GroupBases(bs, s, i);
      }
      GroupLoads(bs, s, e, rs[0], mem, file, a, i, f);
    } else if i >= e {
      PlanLoads(bs, e, rs[1..], mem, file, a, i, f);
    } else {
      var j :| e <= j < |bs| && Touches(bs[j], a);
      var g :| Brings(bs[j], a, g);
      OrderedBases(bs, i, j);
      assert Base(bs[i]) == Base(bs[j]);
      PlanLoads(bs, e, rs[1..], mem, file, a, j, g);
    }
  }

  lemma {:induction false} NoPlanCopies(bs: seq<Blk>, s: nat, rs: seq<seq<Piece>>)
    requires AllOk(bs) && AllApart(bs) && PlanOk(Groups(bs, s), rs)
    ensures PlanCopies(Groups(bs, s), rs) == []
    decreases |bs| - s
  {
    hide Ok, GroupEnd, GroupOk, GroupPieces, GroupCopies, AllApart;
    if s < |bs| {
      GroupOfPlan(bs, s, rs);
      GroupUntrimmed(bs[s..GroupEnd(bs, s, s)], rs[0]);
      NoPlanCopies(bs, GroupEnd(bs, s, s), rs[1..]);
      assert Groups(bs, s)[1..] == Groups(bs, GroupEnd(bs, s, s));
    }
  }

  /** The transfers leave at every address the byte that the intersection furthest on in the file brings, or
      what was there; no copy is recorded. */
  lemma FurthestWins(bs: seq<Blk>, rs: seq<seq<Piece>>, mem: Store, file: Store, a: int)
    requires AllOk(bs) && InOrder(bs) && AllApart(bs) && SameBaseSameByte(bs, a) && PlanOk(Groups(bs, 0), rs)
    ensures PlanCopies(Groups(bs, 0), rs) == []
    ensures NothingFrom(bs, 0, a) ==> Load(mem, file, PlanPieces(Groups(bs, 0), rs), a) == mem(a)
    ensures forall i, f :: Wins(bs, 0, i, a, f) ==> Load(mem, file, PlanPieces(Groups(bs, 0), rs), a) == file(f)
  {
    hide Ok, GroupEnd, GroupOk, Brings, AllApart, Load, InOrder, PlanPieces, Groups, SameBaseSameByte;
    NoPlanCopies(bs, 0, rs);
    NoneInPlan(bs, 0, rs, a);
    if NothingFrom(bs, 0, a) { LoadNone(mem, file, PlanPieces(Groups(bs, 0), rs), a); }
    forall i, f | Wins(bs, 0, i, a, f) ensures Load(mem, file, PlanPieces(Groups(bs, 0), rs), a) == file(f)
    {
      PlanLoads(bs, 0, rs, mem, file, a, i, f);
    }
  }
}
