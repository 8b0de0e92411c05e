/** Grouping of sorted intersections, and when the resulting file type is one that MPI allows. */
module ReadGroups {
  import opened Grid
  import opened Rows
  import opened IndexSearch
  import opened SortOffsets
  import opened Trim
  import opened ReadPlan

  /** Last element of the intersection in the entry's block. */
  function LastOf(b: Blk): (u: Coord)
    requires Ok(b)
    ensures |u| == Rk(b)
  {
    Last(Block(b.isect.dstart, b.isect.count))
  }

  /** Two intersections of the same block of the same entry. */
  predicate SameSource(a: Blk, b: Blk)
  {
    a.isect.foff == b.isect.foff && a.isect.doff == b.isect.doff
  }

  /** `interleve`: the later block starts before the earlier one has ended. */
  predicate Interleaves(a: Blk, b: Blk)
    requires Ok(a) && Ok(b) && Rk(a) == Rk(b)
  {
    LessEq(b.isect.dstart, LastOf(a))
  }

  /** `operator>` as it is written: both of its branches test for greater, so any dimension decides. */
  predicate EndsAfter(a: Blk, b: Blk)
    requires Ok(a) && Ok(b) && Rk(a) == Rk(b)
  {
    exists k :: 0 <= k < Rk(a) && LastOf(a)[k] > LastOf(b)[k]
  }

  /** `operator<`: by position of the entry's block in the file, then by first element. */
  predicate Precedes(a: Blk, b: Blk)
    requires Ok(a) && Ok(b)
  {
    Base(a) < Base(b) || (Base(a) == Base(b) && Rk(a) == Rk(b) && Less(a.isect.dstart, b.isect.dstart))
  }

  ghost predicate InOrder(bs: seq<Blk>)
    requires AllOk(bs)
  {
    forall i, j :: 0 <= i < j < |bs| ==> !Precedes(bs[j], bs[i])
  }

  /** Intersections of the same entry block have the rank of its dataset. */
  ghost predicate Typed(bs: seq<Blk>)
  {
    forall i, j :: 0 <= i < |bs| && 0 <= j < |bs| && SameSource(bs[i], bs[j]) ==> Rk(bs[i]) == Rk(bs[j])
  }

  predicate Joins(a: Blk, b: Blk)
    requires Ok(a) && Ok(b)
  {
    SameSource(a, b) && Rk(a) == Rk(b) && Interleaves(a, b)
  }

  /** End of the group that block i belongs to, when block j is the one that is held to end last. */
  function GroupEnd(bs: seq<Blk>, j: nat, i: nat): (e: nat)
    requires AllOk(bs) && j <= i < |bs|
    ensures i < e <= |bs|
    decreases |bs| - i
  {
    if i + 1 < |bs| && Joins(bs[j], bs[i + 1]) then
      GroupEnd(bs, if EndsAfter(bs[i + 1], bs[j]) then i + 1 else j, i + 1)
    else i + 1
  }

  /** The groups from block s on. */
  function Groups(bs: seq<Blk>, s: nat): (gs: seq<seq<Blk>>)
    requires AllOk(bs)
    decreases |bs| - s
  {
    if s >= |bs| then [] else [bs[s..GroupEnd(bs, s, s)]] + Groups(bs, GroupEnd(bs, s, s))
  }

  // ----- the loops -----

  /** The lexicographic loop of `interleve`. */
  method TestInterleaves(a: Blk, b: Blk) returns (r: bool)
    requires Ok(a) && Ok(b) && Rk(a) == Rk(b)
    ensures r == Interleaves(a, b)
  {
    var s, l := b.isect.dstart, LastOf(a);
    var i := 0;
    LessTotal(s, l);
    while i < |s|
      invariant 0 <= i <= |s| && s[..i] == l[..i]
    {
      if l[i] < s[i] {
        LessByPrefix(l, s, i);
        LessAsym(l, s);
        return false;
      } else if l[i] > s[i] {
        LessByPrefix(s, l, i);
        return true;
      }
      i := i + 1;
    }
    assert s == s[..i] == l[..i] == l;
    r := true;
  }

  method TestEndsAfter(a: Blk, b: Blk) returns (r: bool)
    requires Ok(a) && Ok(b) && Rk(a) == Rk(b)
    ensures r == EndsAfter(a, b)
  {
    var i := 0;
    while i < Rk(a)
      invariant 0 <= i <= Rk(a) && forall k :: 0 <= k < i ==> LastOf(a)[k] <= LastOf(b)[k]
    {
      if a.isect.dstart[i] + a.isect.count[i] > b.isect.dstart[i] + b.isect.count[i] {
        assert LastOf(a)[i] > LastOf(b)[i];
        return true;
      }
      i := i + 1;
    }
    r := false;
  }

  ghost predicate Unmarked(newgroup: seq<bool>, from: nat, to: nat)
  {
    to <= |newgroup| && forall t {:trigger newgroup[t]} :: from <= t < to ==> !newgroup[t]
  }

  /** newgroup[i] tells that a group ends with block i: the groups from block `from` to block `to`. */
  ghost predicate Marks(bs: seq<Blk>, newgroup: seq<bool>, from: nat, to: nat)
    requires AllOk(bs) && |newgroup| == |bs|
    decreases |bs| - from
  {
    from == to ||
    (from < to <= |bs| &&
     (var e := GroupEnd(bs, from, from);
      newgroup[e - 1] && Unmarked(newgroup, from, e - 1) && Marks(bs, newgroup, e, to)))
  }

  lemma {:induction false} MarksOrder(bs: seq<Blk>, g: seq<bool>, from: nat, to: nat)
    requires AllOk(bs) && |g| == |bs| && Marks(bs, g, from, to)
    ensures from <= to
    decreases |bs| - from
  {
    hide Ok, Unmarked;
    if from < to { MarksOrder(bs, g, GroupEnd(bs, from, from), to); }
  }

  lemma {:induction false} MarksFrame(bs: seq<Blk>, g: seq<bool>, from: nat, to: nat, i: nat, v: bool)
    requires AllOk(bs) && |g| == |bs| && Marks(bs, g, from, to) && to <= i < |bs|
    ensures Marks(bs, g[i := v], from, to)
    decreases |bs| - from
  {
    hide Ok;
    if from < to {
      MarksOrder(bs, g, GroupEnd(bs, from, from), to);
      MarksFrame(bs, g, GroupEnd(bs, from, from), to, i, v);
    }
  }

  lemma {:induction false} MarksSnoc(bs: seq<Blk>, g: seq<bool>, from: nat, to: nat)
    requires AllOk(bs) && |g| == |bs| && Marks(bs, g, from, to) && to < |bs|
    requires g[GroupEnd(bs, to, to) - 1] && Unmarked(g, to, GroupEnd(bs, to, to) - 1)
    ensures Marks(bs, g, from, GroupEnd(bs, to, to))
    decreases |bs| - from
  {
    hide Ok, Unmarked;
    if from < to {
      MarksSnoc(bs, g, GroupEnd(bs, from, from), to);
      MarksOrder(bs, g, GroupEnd(bs, from, from), GroupEnd(bs, to, to));
    }
  }

  /** The groups before block s are marked; the open group runs from s to i at least. */
  ghost predicate Pending(bs: seq<Blk>, newgroup: seq<bool>, s: nat, j: nat, i: nat)
    requires AllOk(bs)
  {
    |newgroup| == |bs| && s <= i && j <= i < |bs| && Marks(bs, newgroup, 0, s) && Unmarked(newgroup, s, i) &&
    GroupEnd(bs, s, s) == GroupEnd(bs, j, i)
  }

  lemma PendingJoin(bs: seq<Blk>, g: seq<bool>, s: nat, j: nat, i: nat)
    requires AllOk(bs) && Pending(bs, g, s, j, i) && i + 1 < |bs| && Joins(bs[j], bs[i + 1])
    ensures Pending(bs, g[i := false], s, if EndsAfter(bs[i + 1], bs[j]) then i + 1 else j, i + 1)
  {
    hide Ok, Joins, EndsAfter;
    MarksFrame(bs, g, 0, s, i, false);
  }

  lemma PendingCut(bs: seq<Blk>, g: seq<bool>, s: nat, j: nat, i: nat)
    requires AllOk(bs) && Pending(bs, g, s, j, i) && (i + 1 < |bs| ==> !Joins(bs[j], bs[i + 1]))
    ensures Marks(bs, g[i := true], 0, i + 1) && Unmarked(g[i := true], i + 1, i + 1)
  {
    hide Ok, Joins, EndsAfter;
    MarksFrame(bs, g, 0, s, i, true);
    MarksSnoc(bs, g[i := true], 0, s);
  }

  /** The grouping loop. */
  method MarkGroups(bs: seq<Blk>) returns (newgroup: seq<bool>)
    requires AllOk(bs) && Typed(bs) && bs != []
    ensures |newgroup| == |bs| && Marks(bs, newgroup, 0, |bs|)
  {
    hide Ok, Interleaves, EndsAfter, Marks, GroupEnd;
    newgroup := seq(|bs|, t => false);
    var j, i := 0, 0;
    ghost var s := 0;
    NothingMarked(bs, newgroup);
    while i < |bs| - 1
      invariant 0 <= j <= i < |bs| == |newgroup| && 0 <= s
      invariant Pending(bs, newgroup, s, j, i)
    {
      var joins := false;
      if bs[j].isect.foff == bs[i + 1].isect.foff && bs[j].isect.doff == bs[i + 1].isect.doff {
        assert SameSource(bs[j], bs[i + 1]);
        joins := TestInterleaves(bs[j], bs[i + 1]);
      }
      if joins {
        var later := TestEndsAfter(bs[i + 1], bs[j]);
        PendingJoin(bs, newgroup, s, j, i);
        if later { j := i + 1; }
        newgroup := newgroup[i := false];
      } else {
        PendingCut(bs, newgroup, s, j, i);
        newgroup := newgroup[i := true];
        j := i + 1;
        s := i + 1;
      }
      i := i + 1;
    }
    PendingCut(bs, newgroup, s, j, i);
    newgroup := newgroup[|bs| - 1 := true];
  }

  lemma NothingMarked(bs: seq<Blk>, g: seq<bool>)
    requires AllOk(bs) && bs != [] && |g| == |bs|
    ensures Pending(bs, g, 0, 0, 0)
  {
  }
}
