/** The file and memory types of a read: a subarray type for an intersection that interleaves with no other,
    sorted and trimmed file ranges for a group. */
module ReadTypes {
  import opened Grid
  import opened Rows
  import opened IndexSearch
  import opened SortOffsets
  import opened Trim
  import opened ReadPlan
  import opened ReadGroups
  import opened RunBreakDown

  function AllRuns(g: seq<Blk>): (ps: seq<Piece>)
    requires AllOk(g)
    decreases |g|
  {
    if g == [] then [] else Runs(g[0]) + AllRuns(g[1..])
  }

  /** r is the list of a group's runs in file order. */
  ghost predicate InFileOrder(g: seq<Blk>, r: seq<Piece>)
    requires AllOk(g)
  {
    SortedRange(r, 0, |r|) && multiset(r) == multiset(AllRuns(g))
  }

  /** The ranges read for a group, r being its runs in file order. */
  ghost function GroupPieces(g: seq<Blk>, r: seq<Piece>): seq<Piece>
    requires AllOk(g)
  {
    if |g| == 1 then Runs(g[0]) else Trimmed(r)
  }

  ghost function GroupCopies(g: seq<Blk>, r: seq<Piece>): seq<Copy>
  {
    if |g| == 1 then [] else Overlaps(r)
  }

  ghost predicate GroupsOk(gs: seq<seq<Blk>>) { forall i :: 0 <= i < |gs| ==> AllOk(gs[i]) && gs[i] != [] }

  ghost function PlanPieces(gs: seq<seq<Blk>>, rs: seq<seq<Piece>>): seq<Piece>
    requires GroupsOk(gs) && |rs| == |gs|
    decreases |gs|
  {
    if gs == [] then [] else GroupPieces(gs[0], rs[0]) + PlanPieces(gs[1..], rs[1..])
  }

  ghost function PlanCopies(gs: seq<seq<Blk>>, rs: seq<seq<Piece>>): seq<Copy>
    requires |rs| == |gs|
    decreases |gs|
  {
    if gs == [] then [] else GroupCopies(gs[0], rs[0]) + PlanCopies(gs[1..], rs[1..])
  }

  /** An element of the constructed types. */
  datatype Typ = Subarray(b: Blk) | Bytes(p: Piece)

  ghost predicate TypesOk(ts: seq<Typ>) { forall i :: 0 <= i < |ts| ==> ts[i].Subarray? ==> Ok(ts[i].b) }

  /** What the types transfer, in order. */
  function TypeMap(ts: seq<Typ>): seq<Piece>
    requires TypesOk(ts)
    decreases |ts|
  {
    if ts == [] then [] else Contents(ts[0]) + TypeMap(ts[1..])
  }

  function Contents(t: Typ): seq<Piece>
    requires t.Subarray? ==> Ok(t.b)
  {
    match t
    case Subarray(b) => Runs(b)
    case Bytes(p) => [p]
  }

  lemma {:induction false} TypeMapConcat(a: seq<Typ>, b: seq<Typ>)
    requires TypesOk(a) && TypesOk(b)
    ensures TypesOk(a + b) && TypeMap(a + b) == TypeMap(a) + TypeMap(b)
    decreases |a|
  {
    hide Ok, Runs, TypesOk, TypeMap;
    TypesJoin(a, b);
    if a == [] {
      NoTypes();
      assert a + b == b && [] + TypeMap(b) == TypeMap(b);
    } else {
      TypeMapConcat(a[1..], b);
      assert (a + b)[1..] == a[1..] + b && (a + b)[0] == a[0];
      TypeMapCons(a);
      TypeMapCons(a + b);
      ConcatAssoc(Contents(a[0]), TypeMap(a[1..]), TypeMap(b));
    }
  }

  lemma TypesJoin(a: seq<Typ>, b: seq<Typ>)
    requires TypesOk(a) && TypesOk(b)
    ensures TypesOk(a + b) && (a != [] ==> TypesOk(a[1..]))
  {
    hide Ok;
  }

  lemma NoTypes()
    ensures TypesOk([]) && TypeMap([]) == []
  {
  }

  lemma TypeMapCons(ts: seq<Typ>)
    requires TypesOk(ts) && ts != []
    ensures TypesOk(ts[1..]) && (ts[0].Subarray? ==> Ok(ts[0].b)) && TypeMap(ts) == Contents(ts[0]) + TypeMap(ts[1..])
  {
    hide Ok, Runs;
  }

  function AsBytes(ps: seq<Piece>): (ts: seq<Typ>)
    ensures |ts| == |ps|
  {
    seq(|ps|, i requires 0 <= i < |ps| => Bytes(ps[i]))
  }

  lemma {:induction false} BytesMap(ps: seq<Piece>)
    ensures TypesOk(AsBytes(ps)) && TypeMap(AsBytes(ps)) == ps
    decreases |ps|
  {
    hide Ok, Runs;
    if ps != [] {
      BytesMap(ps[1..]);
      assert AsBytes(ps)[1..] == AsBytes(ps[1..]);
      assert ps == [ps[0]] + ps[1..];
    }
  }

  lemma {:induction false} AllRunsSnoc(g: seq<Blk>, k: nat)
    requires AllOk(g) && k < |g|
    ensures AllRuns(g[..k + 1]) == AllRuns(g[..k]) + Runs(g[k])
    decreases k
  {
    hide Ok, Runs;
    if k == 0 {
      assert g[..1][1..] == [] && g[..0] == [];
    } else {
      AllRunsSnoc(g[1..], k - 1);
      assert g[..k + 1][1..] == g[1..][..k] && g[..k][1..] == g[1..][..k - 1];
    }
  }

  /** Number of rows of a block, as the counting loop computes it. */
  method CountRuns(b: Blk) returns (nrow: nat)
    requires Rk(b) > 0
    ensures nrow == RunCount(b)
  {
    nrow := 1;
    var k := 0;
    var d := Leading(b);
    while k < |d|
      invariant 0 <= k <= |d| && nrow == Prod(d[..k])
    {
      ProdSnoc(d, k);
      nrow := nrow * d[k];
      k := k + 1;
    }
    assert d[..k] == d;
  }

  lemma {:induction false} RunsFit(g: seq<Blk>, k: nat)
    requires AllOk(g) && k < |g|
    ensures |AllRuns(g[..k])| + RunCount(g[k]) <= |AllRuns(g)|
    decreases |g| - k
  {
    hide Ok, Runs, RunCount;
    AllRunsSnoc(g, k);
    if k + 1 < |g| {
      RunsFit(g, k + 1);
    } else {
      assert g[..k + 1] == g;
    }
  }

  method CountGroup(g: seq<Blk>) returns (nt: nat)
    requires AllOk(g) && forall i :: 0 <= i < |g| ==> Rk(g[i]) > 0
    ensures nt == |AllRuns(g)|
  {
    hide Ok, Runs, RunCount;
    nt := 0;
    var j := 0;
    while j < |g|
      invariant 0 <= j <= |g| && nt == |AllRuns(g[..j])|
    {
      AllRunsSnoc(g, j);
      var nrow := CountRuns(g[j]);
      nt := nt + nrow;
      j := j + 1;
    }
    assert g[..j] == g;
  }

  /** One group: a subarray for a single block, otherwise break down, sort, trim. */
  method PlanGroup(g: seq<Blk>) returns (types: seq<Typ>, copies: seq<Copy>, ghost r: seq<Piece>)
    requires AllOk(g) && g != [] && (|g| > 1 ==> forall i :: 0 <= i < |g| ==> Rk(g[i]) > 0)
    ensures InFileOrder(g, r) || |g| == 1
    ensures TypesOk(types) && TypeMap(types) == GroupPieces(g, r) && copies == GroupCopies(g, r)
  {
    hide Ok, Runs, RunCount, Trimmed, Overlaps, SortedRange, Permuted;
    r := [];
    if |g| == 1 {
      SingleMap(g[0]);
      return [Subarray(g[0])], [], r;
    }
    var nt := CountGroup(g);
    var a := new Piece[nt];
    var to, j := 0, 0;
    assert g[..0] == [] && a[..0] == [];
    while j < |g|
      invariant 0 <= j <= |g| && to == |AllRuns(g[..j])| <= a.Length && a[..to] == AllRuns(g[..j])
    {
      RunsFit(g, j);
      AllRunsSnoc(g, j);
      to := BreakDownBlock(g[j], a, to);
      j := j + 1;
    }
    assert g[..j] == g && a[..to] == a[..];
    ghost var s := a[..];
    SortRange(a, 0, nt);
    r := a[..];
    WholePermuted(s, r);
    assert a[0..nt] == r;
    copies := TrimOverlaps(a, 0, nt);
    assert a[0..nt] == a[..];
    types := AsBytes(a[..]);
    BytesMap(a[..]);
  }

  lemma WholePermuted(s: seq<Piece>, t: seq<Piece>)
    requires Permuted(s, t, 0, |s|)
    ensures multiset(t) == multiset(s)
  {
    assert t[0..|s|] == t && s[0..|s|] == s;
  }

  lemma SingleMap(b: Blk)
    requires Ok(b)
    ensures TypesOk([Subarray(b)]) && TypeMap([Subarray(b)]) == Runs(b)
  {
    hide Ok, Runs;
    assert [Subarray(b)][1..] == [];
    assert Runs(b) + [] == Runs(b);
  }

  /** Scalar intersections share their source with no other. */
  ghost predicate ScalarsAlone(bs: seq<Blk>)
  {
    forall i, j :: 0 <= i < |bs| && 0 <= j < |bs| && i != j && SameSource(bs[i], bs[j]) ==> Rk(bs[i]) > 0
  }

  lemma {:induction false} GroupSources(bs: seq<Blk>, j: nat, i: nat, t: nat)
    requires AllOk(bs) && j <= i < |bs| && i <= t < GroupEnd(bs, j, i)
    requires i == j || SameSource(bs[j], bs[i])
    ensures SameSource(bs[j], bs[t])
    decreases |bs| - i
  {
    hide Ok, Interleaves, EndsAfter;
    if i < t {
      GroupSources(bs, if EndsAfter(bs[i + 1], bs[j]) then i + 1 else j, i + 1, t);
    }
  }

  lemma GroupRanks(bs: seq<Blk>, s: nat)
    requires AllOk(bs) && ScalarsAlone(bs) && s < |bs|
    ensures var e := GroupEnd(bs, s, s); AllOk(bs[s..e]) && (e > s + 1 ==> forall t :: s <= t < e ==> Rk(bs[t]) > 0)
  {
    hide Ok, GroupEnd;
    var e := GroupEnd(bs, s, s);
    if e > s + 1 {
      forall t | s <= t < e ensures Rk(bs[t]) > 0
      {
        GroupSources(bs, s, s, t);
        GroupSources(bs, s, s, s + 1);
      }
    }
  }

  lemma {:induction false} GroupsAreOk(bs: seq<Blk>, s: nat)
    requires AllOk(bs)
    ensures GroupsOk(Groups(bs, s))
    decreases |bs| - s
  {
    hide Ok, GroupEnd;
    if s < |bs| { GroupsAreOk(bs, GroupEnd(bs, s, s)); }
  }

  // ----- all groups -----

  lemma OnePlan(g: seq<Blk>, r: seq<Piece>)
    requires AllOk(g) && g != []
    ensures GroupsOk([g]) && PlanPieces([g], [r]) == GroupPieces(g, r) && PlanCopies([g], [r]) == GroupCopies(g, r)
  {
    hide Ok, GroupPieces, GroupCopies;
    assert [g][1..] == [] && [r][1..] == [];
    assert GroupPieces(g, r) + [] == GroupPieces(g, r) && GroupCopies(g, r) + [] == GroupCopies(g, r);
  }

  lemma PlanCons(h: seq<Blk>, q: seq<Piece>, gs: seq<seq<Blk>>, rs: seq<seq<Piece>>)
    requires GroupsOk(gs) && |rs| == |gs| && AllOk(h) && h != []
    ensures GroupsOk([h] + gs) && PlanPieces([h] + gs, [q] + rs) == GroupPieces(h, q) + PlanPieces(gs, rs)
    ensures PlanCopies([h] + gs, [q] + rs) == GroupCopies(h, q) + PlanCopies(gs, rs)
  {
    hide Ok, GroupPieces, GroupCopies;
    assert ([h] + gs)[1..] == gs && ([q] + rs)[1..] == rs;
  }

  lemma {:induction false} PlanConcat(gs: seq<seq<Blk>>, rs: seq<seq<Piece>>, g: seq<Blk>, r: seq<Piece>)
    requires GroupsOk(gs) && |rs| == |gs| && AllOk(g) && g != []
    ensures GroupsOk(gs + [g]) && PlanPieces(gs + [g], rs + [r]) == PlanPieces(gs, rs) + GroupPieces(g, r)
    ensures PlanCopies(gs + [g], rs + [r]) == PlanCopies(gs, rs) + GroupCopies(g, r)
    decreases |gs|
  {
    hide AllOk, GroupPieces, GroupCopies;
    if gs == [] {
      OnePlan(g, r);
      assert gs + [g] == [g] && rs + [r] == [r];
    } else {
      PlanConcat(gs[1..], rs[1..], g, r);
      PlanCons(gs[0], rs[0], gs[1..] + [g], rs[1..] + [r]);
      assert [gs[0]] + (gs[1..] + [g]) == gs + [g] && [rs[0]] + (rs[1..] + [r]) == rs + [r];
    }
  }

  /** The plan up to a block: groups done, their ordered runs, types and copies. */
  ghost predicate Planned(bs: seq<Blk>, s: nat, gs: seq<seq<Blk>>, rs: seq<seq<Piece>>, types: seq<Typ>, copies: seq<Copy>)
    requires AllOk(bs)
  {
    GroupsOk(gs) && |rs| == |gs| && Groups(bs, 0) == gs + Groups(bs, s) &&
    (forall i :: 0 <= i < |gs| ==> |gs[i]| == 1 || InFileOrder(gs[i], rs[i])) &&
    TypesOk(types) && TypeMap(types) == PlanPieces(gs, rs) && copies == PlanCopies(gs, rs)
  }

  lemma PlannedMore(bs: seq<Blk>, s: nat, gs: seq<seq<Blk>>, rs: seq<seq<Piece>>, types: seq<Typ>, copies: seq<Copy>,
      e: nat, g: seq<Blk>, r: seq<Piece>, ts: seq<Typ>, cs: seq<Copy>)
    requires AllOk(bs) && Planned(bs, s, gs, rs, types, copies) && s < |bs| && e == GroupEnd(bs, s, s) && g == bs[s..e]
    requires (|g| == 1 || InFileOrder(g, r)) && TypesOk(ts) && TypeMap(ts) == GroupPieces(g, r) && cs == GroupCopies(g, r)
    ensures Planned(bs, e, gs + [g], rs + [r], types + ts, copies + cs)
  {
    hide Ok, GroupEnd, InFileOrder, GroupPieces, GroupCopies, TypeMap, PlanPieces, PlanCopies, TypesOk;
    PlanConcat(gs, rs, g, r);
    TypeMapConcat(types, ts);
    assert (gs + [g]) + Groups(bs, e) == gs + ([g] + Groups(bs, e));
    forall i | 0 <= i < |gs + [g]| ensures |(gs + [g])[i]| == 1 || InFileOrder((gs + [g])[i], (rs + [r])[i])
    {
      if i < |gs| { assert (gs + [g])[i] == gs[i] && (rs + [r])[i] == rs[i]; }
    }
  }

  /** The planner: mark the groups, then build the types group by group. */
  method GenTypes(bs: seq<Blk>) returns (types: seq<Typ>, overlaps: seq<Copy>, ghost rs: seq<seq<Piece>>)
    requires AllOk(bs) && Typed(bs) && ScalarsAlone(bs)
    ensures GroupsOk(Groups(bs, 0)) && |rs| == |Groups(bs, 0)|
    ensures forall i :: 0 <= i < |rs| ==> |Groups(bs, 0)[i]| == 1 || InFileOrder(Groups(bs, 0)[i], rs[i])
    ensures TypesOk(types) && TypeMap(types) == PlanPieces(Groups(bs, 0), rs) && overlaps == PlanCopies(Groups(bs, 0), rs)
  {
    hide Ok, GroupEnd, Marks, InFileOrder, GroupPieces, GroupCopies, TypeMap, PlanPieces, PlanCopies, Typed, ScalarsAlone, Planned, TypesOk;
    types, overlaps, rs := [], [], [];
    ghost var gs: seq<seq<Blk>> := [];
    PlannedNothing(bs);
    if |bs| > 0 {
      var newgroup := MarkGroups(bs);
      var i, j := 0, 0;
      while i < |bs|
        invariant 0 <= j <= i <= |bs| && |newgroup| == |bs| && Marks(bs, newgroup, j, |bs|)
        invariant Planned(bs, j, gs, rs, types, overlaps) && Unmarked(newgroup, j, i) && (i == |bs| ==> j == i)
      {
        if newgroup[i] {
          MarkEndsGroup(bs, newgroup, j, i);
          GroupRanks(bs, j);
          var ts, cs; ghost var r;
          ts, cs, r := PlanGroup(bs[j..i + 1]);
          PlannedMore(bs, j, gs, rs, types, overlaps, i + 1, bs[j..i + 1], r, ts, cs);
          types, overlaps, rs := types + ts, overlaps + cs, rs + [r];
          gs := gs + [bs[j..i + 1]];
          j := i + 1;
        } else {
          NoMarkIsInside(bs, newgroup, j, i);
        }
        i := i + 1;
      }
    }
    PlannedAll(bs, gs, rs, types, overlaps);
  }

  lemma PlannedNothing(bs: seq<Blk>)
    requires AllOk(bs)
    ensures Planned(bs, 0, [], [], [], [])
  {
    hide Ok;
    assert [] + Groups(bs, 0) == Groups(bs, 0);
  }

  lemma PlannedAll(bs: seq<Blk>, gs: seq<seq<Blk>>, rs: seq<seq<Piece>>, types: seq<Typ>, copies: seq<Copy>)
    requires AllOk(bs) && Planned(bs, |bs|, gs, rs, types, copies)
    ensures gs == Groups(bs, 0) && GroupsOk(gs) && |rs| == |gs|
    ensures forall i :: 0 <= i < |rs| ==> |gs[i]| == 1 || InFileOrder(gs[i], rs[i])
    ensures TypesOk(types) && TypeMap(types) == PlanPieces(gs, rs) && copies == PlanCopies(gs, rs)
  {
    hide Ok, InFileOrder, TypeMap, PlanPieces, PlanCopies, TypesOk, GroupsOk;
    assert gs + [] == gs;
  }

  lemma MarkEndsGroup(bs: seq<Blk>, g: seq<bool>, j: nat, i: nat)
    requires AllOk(bs) && |g| == |bs| && j <= i < |bs| && Marks(bs, g, j, |bs|) && Unmarked(g, j, i) && g[i]
    ensures GroupEnd(bs, j, j) == i + 1 && Marks(bs, g, i + 1, |bs|) && Unmarked(g, i + 1, i + 1)
  {
    hide Ok, GroupEnd;
    var e := GroupEnd(bs, j, j);
    assert g[e - 1];
  }

  lemma NoMarkIsInside(bs: seq<Blk>, g: seq<bool>, j: nat, i: nat)
    requires AllOk(bs) && |g| == |bs| && j <= i < |bs| && Marks(bs, g, j, |bs|) && Unmarked(g, j, i) && !g[i]
    ensures Unmarked(g, j, i + 1) && i + 1 < |bs|
  {
    hide Ok, GroupEnd;
    var e := GroupEnd(bs, j, j);
    assert g[e - 1];
  }
}
