/** Whether the file type that the planner builds is one that MPI allows: its ranges increasing and disjoint. */
module ReadLegal {
  import opened Grid
  import opened Radix
  import opened Rows
  import opened IndexSearch
  import opened SortOffsets
  import opened Trim
  import opened ReadPlan
  import opened ReadGroups
  import opened ReadTypes

  /** Non-empty ranges follow one another without overlap. */
  ghost predicate Legal(ps: seq<Piece>)
  {
    forall k, l :: 0 <= k < l < |ps| && ps[k].len > 0 && ps[l].len > 0 ==> End(ps[k]) <= ps[l].foff
  }

  function LastU(b: Blk): (u: Coord)
    requires Ok(b)
    ensures InBounds(b.isect.count, u)
  {
    seq(Rk(b), k requires 0 <= k < Rk(b) => b.isect.count[k] - 1)
  }

  function ZeroU(b: Blk): (u: Coord)
    requires Ok(b)
    ensures InBounds(b.isect.count, u)
  {
    seq(Rk(b), k => 0)
  }

  /** File offsets at which the intersection starts and ends. */
  function FileStart(b: Blk): int
    requires Ok(b)
  {
    FileAt(b, ZeroU(b))
  }

  function FileEnd(b: Blk): int
    requires Ok(b)
  {
    FileAt(b, LastU(b)) + b.esize
  }

  lemma {:induction false} PointwiseLessEq(a: Coord, b: Coord)
    requires |a| == |b| && forall k :: 0 <= k < |a| ==> a[k] <= b[k]
    ensures LessEq(a, b)
    decreases |a|
  {
    if a != [] {
      forall k | 0 <= k < |a[1..]| ensures a[1..][k] <= b[1..][k] { assert a[k + 1] <= b[k + 1]; }
      PointwiseLessEq(a[1..], b[1..]);
      LessEqCons(a, b);
    }
  }

  lemma InEntry(b: Blk, u: Coord)
    requires Ok(b) && InBounds(b.isect.count, u)
    ensures InBounds(b.isect.dsize, Add(b.isect.dstart, u))
  {
    forall k | 0 <= k < |u| ensures Add(b.isect.dstart, u)[k] < b.isect.dsize[k]
    {
      assert b.isect.dstart[k] + b.isect.count[k] <= b.isect.dsize[k];
    }
  }

  /** Elements further on in the intersection are further on in the file. */
  lemma FileOrder(b: Blk, u: Coord, v: Coord)
    requires Ok(b) && InBounds(b.isect.count, u) && InBounds(b.isect.count, v)
    ensures LessEq(u, v) ==> FileAt(b, u) <= FileAt(b, v)
    ensures Less(u, v) ==> FileAt(b, u) + b.esize <= FileAt(b, v)
  {
    var x, y := Add(b.isect.dstart, u), Add(b.isect.dstart, v);
    InEntry(b, u);
    InEntry(b, v);
    LessShift(u, v, b.isect.dstart);
    assert Add(u, b.isect.dstart) == x && Add(v, b.isect.dstart) == y;
    LinearOrder(b.isect.dsize, x, y);
    if Less(u, v) { StepMul(Linear(b.isect.dsize, x), Linear(b.isect.dsize, y), b.esize); }
  }

  lemma StepMul(a: nat, b: nat, e: nat)
    requires a < b
    ensures a * e + e <= b * e
  {
    MulMono(a + 1, b, e);
    Distribute(a, 1, e);
  }

  lemma WithinFile(b: Blk, u: Coord)
    requires Ok(b) && InBounds(b.isect.count, u)
    ensures FileStart(b) <= FileAt(b, u) && FileAt(b, u) + b.esize <= FileEnd(b)
  {
    hide FileAt;
    PointwiseLessEq(ZeroU(b), u);
    PointwiseLessEq(u, LastU(b));
    FileOrder(b, ZeroU(b), u);
    FileOrder(b, u, LastU(b));
  }

  /** First and last element of a run. */
  lemma RunEnds(b: Blk, t: nat) returns (u: Coord, v: Coord)
    requires Ok(b) && t < RunCount(b)
    ensures InBounds(b.isect.count, u) && InBounds(b.isect.count, v)
    ensures RunNo(b, t).foff == FileAt(b, u) && End(RunNo(b, t)) == FileAt(b, v) + b.esize && RunNo(b, t).len > 0
    ensures Rk(b) > 0 ==> Positive(Dsteps(Leading(b))) && InBounds(Leading(b), Decode(Dsteps(Leading(b)), t))
    ensures Rk(b) > 0 ==> u == Decode(Dsteps(Leading(b)), t) + [0]
    ensures Rk(b) > 0 ==> v == Decode(Dsteps(Leading(b)), t) + [b.isect.count[Rk(b) - 1] - 1]
  {
    hide FileAt, MemAt, Decode, Dsteps, Linear;
    if Rk(b) == 0 {
      u, v := [], [];
    } else {
      CounterInBounds(b, t);
      var c, j := Decode(Dsteps(Leading(b)), t), b.isect.count[Rk(b) - 1];
      u, v := c + [0], c + [j - 1];
      RunElement(b, c, j - 1);
      Distribute(j - 1, 1, b.esize);
      MulMono(1, j, b.esize);
      forall i | 0 <= i < |u| ensures u[i] < b.isect.count[i] && v[i] < b.isect.count[i]
      {
        if i < |c| { assert c[i] < Leading(b)[i]; }
      }
    }
  }

  lemma RunInside(b: Blk, t: nat)
    requires Ok(b) && t < RunCount(b)
    ensures FileStart(b) <= RunNo(b, t).foff && End(RunNo(b, t)) <= FileEnd(b) && RunNo(b, t).len > 0
  {
    hide FileAt, RunNo, FileStart, FileEnd, RunCount;
    var u, v := RunEnds(b, t);
    WithinFile(b, u);
    WithinFile(b, v);
  }

  lemma {:induction false} LessAppend(a: Coord, b: Coord, x: nat, y: nat)
    requires |a| == |b| && Less(a, b)
    ensures Less(a + [x], b + [y])
    decreases |a|
  {
    assert (a + [x])[1..] == a[1..] + [x] && (b + [y])[1..] == b[1..] + [y];
    if a[0] == b[0] { LessAppend(a[1..], b[1..], x, y); }
  }

  /** Runs of one intersection are in file order. */
  lemma RunsLegal(b: Blk)
    requires Ok(b)
    ensures Legal(Runs(b))
  {
    hide FileAt, RunNo, RunCount;
    forall t, t' | 0 <= t < t' < |Runs(b)| ensures End(Runs(b)[t]) <= Runs(b)[t'].foff { RunsOrdered(b, t, t'); }
  }

  lemma RunsOrdered(b: Blk, t: nat, t': nat)
    requires Ok(b) && t < t' < RunCount(b)
    ensures End(RunNo(b, t)) <= RunNo(b, t').foff
  {
    hide FileAt, RunNo;
    var u, v := RunEnds(b, t);
    var u', v' := RunEnds(b, t');
    CounterInBounds(b, t);
    CounterInBounds(b, t');
    var c, c' := Decode(Dsteps(Leading(b)), t), Decode(Dsteps(Leading(b)), t');
    LinearOrder(Leading(b), c, c');
    LessAppend(c, c', b.isect.count[Rk(b) - 1] - 1, 0);
    FileOrder(b, v, u');
  }

  // ----- pieces of a group -----

  lemma {:induction false} AllRunsMember(g: seq<Blk>, p: Piece) returns (i: nat, t: nat)
    requires AllOk(g) && p in AllRuns(g)
    ensures i < |g| && t < RunCount(g[i]) && p == RunNo(g[i], t)
    decreases |g|
  {
    hide Ok, RunNo, RunCount;
    if p in Runs(g[0]) {
      i := 0;
      t :| 0 <= t < |Runs(g[0])| && Runs(g[0])[t] == p;
    } else {
      i, t := AllRunsMember(g[1..], p);
      i := i + 1;
    }
  }

  lemma {:induction false} MemberAllRuns(g: seq<Blk>, i: nat, t: nat)
    requires AllOk(g) && i < |g| && t < RunCount(g[i])
    ensures RunNo(g[i], t) in AllRuns(g)
    decreases |g|
  {
    hide Ok, RunNo, RunCount;
    if i == 0 {
      assert Runs(g[0])[t] == RunNo(g[0], t);
    } else {
      MemberAllRuns(g[1..], i - 1, t);
    }
  }

  lemma InOrderMembers(g: seq<Blk>, r: seq<Piece>, p: Piece)
    requires AllOk(g) && InFileOrder(g, r)
    ensures p in r <==> p in AllRuns(g)
  {
    assert p in r <==> p in multiset(r);
    assert p in AllRuns(g) <==> p in multiset(AllRuns(g));
  }

  ghost predicate GroupOk(g: seq<Blk>, r: seq<Piece>)
  {
    AllOk(g) && g != [] && (|g| == 1 || InFileOrder(g, r))
  }

  /** Every piece of a group lies within one of its blocks. */
  lemma PieceWithin(g: seq<Blk>, r: seq<Piece>, p: Piece) returns (i: nat)
    requires GroupOk(g, r) && p in GroupPieces(g, r)
    ensures i < |g| && FileStart(g[i]) <= p.foff && End(p) <= FileEnd(g[i])
  {
    hide RunNo, FileStart, FileEnd, CutBy, RunCount;
    var t;
    if |g| == 1 {
      i := 0;
      t :| 0 <= t < |Runs(g[0])| && Runs(g[0])[t] == p;
    } else {
      var l :| 0 <= l < |r| && Trimmed(r)[l] == p;
      InOrderMembers(g, r, r[l]);
      i, t := AllRunsMember(g, r[l]);
    }
    RunInside(g[i], t);
  }

  /** Every byte that a block of a group covers in a run is in a piece of the group. */
  lemma ByteInPiece(g: seq<Blk>, r: seq<Piece>, i: nat, t: nat, x: int) returns (p: Piece)
    requires GroupOk(g, r) && i < |g| && t < RunCount(g[i]) && InRange(RunNo(g[i], t), x)
    ensures p in GroupPieces(g, r) && InRange(p, x)
  {
    hide RunNo, RunCount, CutBy;
    if |g| == 1 {
      p := Runs(g[0])[t];
    } else {
      MemberAllRuns(g, i, t);
      InOrderMembers(g, r, RunNo(g[i], t));
      var l :| 0 <= l < |r| && r[l] == RunNo(g[i], t);
      var k := TrimmedUnion(r, x, l);
      p := Trimmed(r)[k];
    }
  }

  /** The first and the last byte of a block are read by non-empty pieces of its group. */
  lemma BoundaryPieces(g: seq<Blk>, r: seq<Piece>, i: nat) returns (p: Piece, q: Piece)
    requires GroupOk(g, r) && i < |g|
    ensures p in GroupPieces(g, r) && p.len > 0 && p.foff <= FileStart(g[i])
    ensures q in GroupPieces(g, r) && q.len > 0 && FileEnd(g[i]) <= End(q)
  {
    hide RunNo, RunCount, FileAt, GroupPieces, MemAt;
    var b := g[i];
    var t := RunOfByte(b, ZeroU(b), 0);
    SameByte(b, t, ZeroU(b), 0);
    p := ByteInPiece(g, r, i, t, FileStart(b));
    var t' := RunOfByte(b, LastU(b), b.esize - 1);
    SameByte(b, t', LastU(b), b.esize - 1);
    q := ByteInPiece(g, r, i, t', FileEnd(b) - 1);
  }

  lemma SameByte(b: Blk, t: nat, u: Coord, k: nat)
    requires Ok(b) && InBounds(b.isect.count, u) && Into(RunNo(b, t), MemAt(b, u) + k)
    requires RunNo(b, t).foff + (MemAt(b, u) + k - RunNo(b, t).moff) == FileAt(b, u) + k
    ensures InRange(RunNo(b, t), FileAt(b, u) + k)
  {
  }

  lemma GroupLegal(g: seq<Blk>, r: seq<Piece>)
    requires GroupOk(g, r)
    ensures Legal(GroupPieces(g, r))
  {
    hide CutBy, Runs;
    if |g| == 1 { RunsLegal(g[0]); } else { TrimmedLegal(r); }
  }

  // ----- the whole plan -----

  /** Every block of an earlier group ends before any block of a later group starts. */
  ghost predicate CutsReal(gs: seq<seq<Blk>>)
    requires GroupsOk(gs)
  {
    forall a, b, i, j :: 0 <= a < b < |gs| && 0 <= i < |gs[a]| && 0 <= j < |gs[b]| ==> FileEnd(gs[a][i]) <= FileStart(gs[b][j])
  }

  ghost predicate PlanOk(gs: seq<seq<Blk>>, rs: seq<seq<Piece>>)
  {
    |rs| == |gs| && GroupsOk(gs) && forall i :: 0 <= i < |gs| ==> GroupOk(gs[i], rs[i])
  }

  lemma {:induction false} PlanMember(gs: seq<seq<Blk>>, rs: seq<seq<Piece>>, p: Piece)
    requires PlanOk(gs, rs)
    ensures p in PlanPieces(gs, rs) <==> exists a :: 0 <= a < |gs| && p in GroupPieces(gs[a], rs[a])
    decreases |gs|
  {
    hide GroupPieces, GroupOk, Ok;
    if gs != [] {
      PlanMember(gs[1..], rs[1..], p);
      if p in PlanPieces(gs[1..], rs[1..]) {
        var a :| 0 <= a < |gs[1..]| && p in GroupPieces(gs[1..][a], rs[1..][a]);
        assert p in GroupPieces(gs[a + 1], rs[a + 1]);
      }
      if a :| 0 <= a < |gs| && p in GroupPieces(gs[a], rs[a]) {
        if a > 0 { assert p in GroupPieces(gs[1..][a - 1], rs[1..][a - 1]); }
      }
    }
  }

  /** The non-empty ranges of b come after those of a. */
  ghost predicate Follows(a: seq<Piece>, b: seq<Piece>)
  {
    forall p, q :: p in a && q in b && p.len > 0 && q.len > 0 ==> End(p) <= q.foff
  }

  lemma LegalConcat(a: seq<Piece>, b: seq<Piece>)
    ensures Legal(a + b) <==> Legal(a) && Legal(b) && Follows(a, b)
  {
    var s := a + b;
    if Legal(s) {
      forall k, l | 0 <= k < l < |a| && a[k].len > 0 && a[l].len > 0 ensures End(a[k]) <= a[l].foff { assert s[k] == a[k] && s[l] == a[l]; }
      forall k, l | 0 <= k < l < |b| && b[k].len > 0 && b[l].len > 0 ensures End(b[k]) <= b[l].foff
      {
        assert s[|a| + k] == b[k] && s[|a| + l] == b[l];
      }
      forall p, q | p in a && q in b && p.len > 0 && q.len > 0 ensures End(p) <= q.foff
      {
        var k :| 0 <= k < |a| && a[k] == p;
        var l :| 0 <= l < |b| && b[l] == q;
        assert s[k] == p && s[|a| + l] == q;
      }
    }
    if Legal(a) && Legal(b) && Follows(a, b) {
      forall k, l | 0 <= k < l < |s| && s[k].len > 0 && s[l].len > 0 ensures End(s[k]) <= s[l].foff
      {
        if k < |a| <= l { assert s[k] in a && s[l] in b; }
      }
    }
  }

  /** The file type is legal exactly when the cuts between groups are real. */
  lemma {:induction false} PlanLegal(gs: seq<seq<Blk>>, rs: seq<seq<Piece>>)
    requires PlanOk(gs, rs)
    ensures Legal(PlanPieces(gs, rs)) <==> CutsReal(gs)
    decreases |gs|
  {
    hide GroupPieces, FileStart, FileEnd, Legal, Ok, GroupOk;
    if gs == [] {
      NoPieces();
    } else {
      PlanLegal(gs[1..], rs[1..]);
      assert GroupOk(gs[0], rs[0]);
      GroupLegal(gs[0], rs[0]);
      LegalConcat(GroupPieces(gs[0], rs[0]), PlanPieces(gs[1..], rs[1..]));
      CutsSplit(gs);
      FirstCut(gs, rs);
    }
  }

  lemma NoPieces()
    ensures Legal([])
  {
  }

  ghost predicate FirstReal(gs: seq<seq<Blk>>)
    requires GroupsOk(gs) && gs != []
  {
    forall b, i, j :: 0 < b < |gs| && 0 <= i < |gs[0]| && 0 <= j < |gs[b]| ==> FileEnd(gs[0][i]) <= FileStart(gs[b][j])
  }

  lemma CutsSplit(gs: seq<seq<Blk>>)
    requires GroupsOk(gs) && gs != []
    ensures CutsReal(gs) <==> FirstReal(gs) && CutsReal(gs[1..])
  {
    hide FileStart, FileEnd, Ok;
    if FirstReal(gs) && CutsReal(gs[1..]) {
      forall a, b, i, j | 0 <= a < b < |gs| && 0 <= i < |gs[a]| && 0 <= j < |gs[b]|
        ensures FileEnd(gs[a][i]) <= FileStart(gs[b][j])
      {
        if a > 0 { assert FileEnd(gs[1..][a - 1][i]) <= FileStart(gs[1..][b - 1][j]); }
      }
    }
    if CutsReal(gs) {
      forall a, b, i, j | 0 <= a < b < |gs[1..]| && 0 <= i < |gs[1..][a]| && 0 <= j < |gs[1..][b]|
        ensures FileEnd(gs[1..][a][i]) <= FileStart(gs[1..][b][j])
      {
        assert FileEnd(gs[a + 1][i]) <= FileStart(gs[b + 1][j]);
      }
    }
  }

  lemma FirstCut(gs: seq<seq<Blk>>, rs: seq<seq<Piece>>)
    requires PlanOk(gs, rs) && gs != []
    ensures FirstReal(gs) <==> Follows(GroupPieces(gs[0], rs[0]), PlanPieces(gs[1..], rs[1..]))
  {
    hide GroupPieces, FileStart, FileEnd, Ok, GroupOk;
    assert GroupOk(gs[0], rs[0]);
    if FirstReal(gs) {
      forall p, q | p in GroupPieces(gs[0], rs[0]) && q in PlanPieces(gs[1..], rs[1..]) && p.len > 0 && q.len > 0
        ensures End(p) <= q.foff
      {
        PlanMember(gs[1..], rs[1..], q);
        var a :| 0 <= a < |gs[1..]| && q in GroupPieces(gs[1..][a], rs[1..][a]);
        assert GroupOk(gs[a + 1], rs[a + 1]);
        var i := PieceWithin(gs[0], rs[0], p);
        var j := PieceWithin(gs[a + 1], rs[a + 1], q);
        assert FileEnd(gs[0][i]) <= FileStart(gs[a + 1][j]);
      }
    }
    if Follows(GroupPieces(gs[0], rs[0]), PlanPieces(gs[1..], rs[1..])) {
      forall b, i, j | 0 < b < |gs| && 0 <= i < |gs[0]| && 0 <= j < |gs[b]|
        ensures FileEnd(gs[0][i]) <= FileStart(gs[b][j])
      {
        assert GroupOk(gs[b], rs[b]);
        var p0, p := BoundaryPieces(gs[0], rs[0], i);
        var q, q0 := BoundaryPieces(gs[b], rs[b], j);
        PlanMember(gs[1..], rs[1..], q);
        assert q in GroupPieces(gs[1..][b - 1], rs[1..][b - 1]);
      }
    }
  }
}
