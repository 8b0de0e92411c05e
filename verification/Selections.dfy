/** The hyperslab and point cases of the selection constructor, in place over rows and pointers to them. */
module Selections {
  import opened Grid
  import opened Rows
  import opened BlockSort
  import opened BlockMerge
  import opened MergeFull
  import opened SlotMerge
  import opened CanonicalForm
  import opened SlotFill
  import opened RowBreakDown

  // ----- grouping -----

  lemma EndIsLast(n: nat, x: Cell)
    requires CellOk(true, n, x)
    ensures Last(AsBlock(true, n, x)) == x.ext
  {
  }

  /** The cells are the spans of the block list g. */
  ghost predicate IsView(n: nat, cells: seq<Cell>, g: seq<Block>)
  {
    |cells| == |g| && forall t {:trigger cells[t]} :: 0 <= t < |g| ==> CellOk(true, n, cells[t]) && AsBlock(true, n, cells[t]) == g[t]
  }

  /** Block i + 1 is in the group of block i unless it starts after block i ends. */
  ghost predicate GroupStep(n: nat, g: seq<Block>, group: seq<int>, i: nat)
    requires AllWF(n, g) && i + 1 < |g| && i + 1 < |group|
  {
    group[i + 1] == group[i] + if Less(Last(g[i]), g[i + 1].start) then 1 else 0
  }

  ghost predicate Grouping(n: nat, g: seq<Block>, group: seq<int>)
    requires AllWF(n, g)
  {
    |group| == |g| + 1 && (g != [] ==> group[|g|] == group[|g| - 1] + 1) &&
    forall i :: 0 <= i < |g| - 1 ==> GroupStep(n, g, group, i)
  }

  /** Blocks j to i - 1 carry one group number. */
  ghost predicate SameGroup(group: seq<int>, j: nat, i: nat)
  {
    j < |group| && i <= |group| && forall t {:trigger group[t]} :: j <= t < i ==> group[t] == group[j]
  }

  lemma GroupGrow(n: nat, g: seq<Block>, was: seq<int>, i: nat, v: int)
    requires AllWF(n, g) && |was| == i + 1 < |g| && forall t :: 0 <= t < i ==> GroupStep(n, g, was, t)
    requires v == was[i] + if Less(Last(g[i]), g[i + 1].start) then 1 else 0
    ensures forall t :: 0 <= t < i + 1 ==> GroupStep(n, g, was + [v], t)
  {
    forall t | 0 <= t < i + 1 ensures GroupStep(n, g, was + [v], t)
    {
      if t < i { assert GroupStep(n, g, was, t); }
    }
  }

  /** Numbers the groups; a dummy group at the end triggers the processing of the last one. */
  method GroupBlocks(n: nat, cells: seq<Cell>, ghost g: seq<Block>) returns (group: seq<int>)
    requires IsView(n, cells, g) && AllWF(n, g) && cells != []
    ensures Grouping(n, g, group)
  {
    group := [0];
    var i := 0;
    while i < |cells| - 1
      invariant 0 <= i <= |cells| - 1 && |group| == i + 1
      invariant forall t :: 0 <= t < i ==> GroupStep(n, g, group, t)
    {
      assert CellOk(true, n, cells[i]) && CellOk(true, n, cells[i + 1]);
      EndIsLast(n, cells[i]);
      var v := if Less(cells[i].ext, cells[i + 1].start) then group[i] + 1 else group[i];
      GroupGrow(n, g, group, i, v);
      group := group + [v];
      i := i + 1;
    }
    ghost var was := group;
    group := group + [group[i] + 1];
    forall t | 0 <= t < |g| - 1 ensures GroupStep(n, g, group, t) { assert GroupStep(n, g, was, t); }
  }

  /** The first index at which the group number changes is the end of the run. */
  lemma {:induction false} RunEnds(n: nat, g: seq<Block>, group: seq<int>, j: nat, i: nat)
    requires AllWF(n, g) && Grouping(n, g, group) && j < i <= |g|
    requires SameGroup(group, j, i) && group[i] != group[j]
    ensures AllWF(n, g[j..]) && RunLen(n, g[j..]) == i - j
    decreases i - j
  {
    var t := g[j..];
    if j + 1 < |g| { assert GroupStep(n, g, group, j); }
    if i == j + 1 {
      assert |t| == 1 || (t[1] == g[j + 1] && t[0] == g[j]);
    } else {
      assert group[j + 1] == group[j];
      RunEnds(n, g, group, j + 1, i);
      assert t[1..] == g[j + 1..] && t[1] == g[j + 1];
    }
  }

  // ----- counting -----

  function RowTotal(n: nat, g: seq<Block>): nat
    requires n > 0 && AllWF(n, g)
    decreases |g|
  {
    if g == [] then 0 else Prod(Front(g[0].count)) + RowTotal(n, g[1..])
  }

  lemma {:induction false} RowTotalRows(n: nat, g: seq<Block>)
    requires n > 0 && AllWF(n, g)
    ensures |AllRows(n, g)| == RowTotal(n, g)
    decreases |g|
  {
    if g != [] {
      RowCount(g[0]);
      RowTotalRows(n, g[1..]);
    }
  }

  lemma {:induction false} RowTotalSnoc(n: nat, g: seq<Block>, k: nat)
    requires n > 0 && AllWF(n, g) && k < |g|
    ensures RowTotal(n, g[..k + 1]) == RowTotal(n, g[..k]) + Prod(Front(g[k].count))
    decreases k
  {
    if k == 0 {
      assert g[..1][1..] == [] && g[..0] == [];
    } else {
      assert AllWF(n, g[1..]);
      RowTotalSnoc(n, g[1..], k - 1);
      assert g[..k + 1][1..] == g[1..][..k] && g[..k][1..] == g[1..][..k - 1];
    }
  }

  /** Number of rows of one block, multiplied up over its leading extents. */
  method CountRows(n: nat, x: Cell) returns (r: nat)
    requires n > 0 && CellOk(true, n, x)
    ensures r == Prod(Front(AsBlock(true, n, x).count))
  {
    ghost var dims := Front(AsBlock(true, n, x).count);
    r := 1;
    var k := 0;
    assert dims[..0] == [];
    while k < n - 1
      invariant 0 <= k <= n - 1 && r == Prod(dims[..k])
    {
      ProdSnoc(dims, k);
      r := r * (x.ext[k] - x.start[k] + 1);
      k := k + 1;
    }
    assert dims[..k] == dims;
  }

  lemma Slices(n: nat, g: seq<Block>, j: nat, i: nat)
    requires AllWF(n, g) && j <= i <= |g|
    ensures g[j..][..i - j] == g[j..i] && g[j..][i - j..] == g[i..] && AllWF(n, g[j..i]) && AllWF(n, g[i..])
  {
  }

  /** Rows of the blocks j to i - 1, which are broken down. */
  method CountRun(n: nat, cells: seq<Cell>, ghost g: seq<Block>, j0: nat, i: nat) returns (total: nat)
    requires n > 0 && IsView(n, cells, g) && AllWF(n, g) && j0 <= i <= |cells|
    ensures AllWF(n, g[j0..i])
    ensures total == RowTotal(n, g[j0..i])
  {
    ghost var run := g[j0..i];
    total := 0;
    var j := j0;
    assert run[..0] == [];
    while j < i
      invariant j0 <= j <= i && AllWF(n, run)
      invariant total == RowTotal(n, run[..j - j0])
    {
      RowTotalSnoc(n, run, j - j0);
      assert run[j - j0] == g[j] == AsBlock(true, n, cells[j]);
      var nbreq := CountRows(n, cells[j]);
      total := total + nbreq;
      j := j + 1;
    }
    assert run[..i - j0] == run;
  }

  ghost predicate Counted(n: nat, g: seq<Block>, j: nat, nreq: nat, total: nat)
  {
    n > 0 && j <= |g| && AllWF(n, g) && AllWF(n, g[j..]) && nreq + Need(n, g[j..]) == total
  }

  lemma CountedStep(n: nat, g: seq<Block>, group: seq<int>, j: nat, i: nat, nreq: nat, total: nat)
    requires Counted(n, g, j, nreq, total) && j < i <= |g| && Grouping(n, g, group)
    requires SameGroup(group, j, i) && group[i] != group[j]
    ensures AllWF(n, g[j..i]) && i > j && Counted(n, g, i, nreq + |Pieces(n, g[j..i])|, total)
  {
    hide Need, Pieces, RunLen, Grouping, SameGroup;
    RunEnds(n, g, group, j, i);
    Slices(n, g, j, i);
    FirstRun(n, g[j..], i - j);
  }

  lemma CountedEnds(n: nat, g: seq<Block>, nreq: nat)
    requires n > 0 && AllWF(n, g)
    ensures Counted(n, g, 0, 0, Need(n, g))
    ensures Counted(n, g, |g|, nreq, Need(n, g)) ==> nreq == Need(n, g)
  {
    assert g[0..] == g && g[|g|..] == [];
  }

  /** Adds the room for the group of blocks j to i - 1. */
  method CountGroup(n: nat, cells: seq<Cell>, ghost g: seq<Block>, ghost group: seq<int>, j: nat, i: nat, nreq: nat, ghost total: nat) returns (sum: nat)
    requires n > 0 && IsView(n, cells, g) && AllWF(n, g) && Grouping(n, g, group)
    requires Counted(n, g, j, nreq, total) && j < i <= |g| && SameGroup(group, j, i) && group[i] != group[j]
    ensures Counted(n, g, i, sum, total)
  {
    CountedStep(n, g, group, j, i, nreq, total);
    ghost var run := g[j..i];
    if i - j == 1 {
      assert |run| == 1;
      sum := nreq + 1;
    } else {
      var rows := CountRun(n, cells, g, j, i);
      assert |run| != 1;
      RowTotalRows(n, run);
      sum := nreq + rows;
    }
  }

  /** Number of blocks the output arrays are allocated for. */
  method CountOutput(n: nat, cells: seq<Cell>, ghost g: seq<Block>, group: seq<int>) returns (nreq: nat)
    requires n > 0 && IsView(n, cells, g) && AllWF(n, g) && cells != []
    requires Grouping(n, g, group)
    ensures nreq == Need(n, g)
  {
    hide Counted, Need;
    ghost var total := Need(n, g);
    nreq := 0;
    var i, j := 0, 0;
    CountedEnds(n, g, 0);
    while i <= |cells|
      invariant 0 <= j <= i <= |cells| + 1 && j <= |cells| == |g|
      invariant j < |cells| ==> SameGroup(group, j, i)
      invariant Counted(n, g, j, nreq, total)
      invariant i == |cells| + 1 ==> j == |cells|
    {
      if group[i] != group[j] {
        nreq := CountGroup(n, cells, g, group, j, i, nreq, total);
        j := i;
      }
      i := i + 1;
    }
    CountedEnds(n, g, nreq);
  }

  // ----- filling up the selection -----

  lemma {:induction false} StoreConcat(n: nat, s: Slots, from: nat, xs: seq<Cell>, ys: seq<Cell>)
    requires SlotsOk(n, s) && AllRanked(n, xs) && AllRanked(n, ys) && from + |xs| + |ys| <= |s.refs|
    ensures AllRanked(n, xs + ys) && Store(n, s, from, xs + ys) == Store(n, Store(n, s, from, xs), from + |xs|, ys)
    decreases |ys|
  {
    hide Store, Ranked;
    RankedConcat(n, xs, ys);
    if ys == [] {
      assert xs + ys == xs;
      StoreNothing(n, Store(n, s, from, xs), from + |xs|);
    } else {
      var k := |ys| - 1;
      StoreConcat(n, s, from, xs, ys[..k]);
      assert xs + ys == (xs + ys[..k]) + [ys[k]] && ys == ys[..k] + [ys[k]];
      StoreSnoc(n, s, from, xs + ys[..k], ys[k]);
      StoreSnoc(n, Store(n, s, from, xs), from + |xs|, ys[..k], ys[k]);
    }
  }

  lemma RankedConcat(n: nat, xs: seq<Cell>, ys: seq<Cell>)
    requires AllRanked(n, xs) && AllRanked(n, ys)
    ensures AllRanked(n, xs + ys) && forall k :: 0 <= k < |ys| ==> Ranked(n, ys[k]) && AllRanked(n, ys[..k])
  {
    hide Ranked;
  }

  lemma StoreNothing(n: nat, s: Slots, from: nat)
    requires SlotsOk(n, s) && from <= |s.refs|
    ensures Store(n, s, from, []) == s
  {
  }

  lemma {:induction false} AllRowsSnoc(n: nat, g: seq<Block>, k: nat)
    requires n > 0 && AllWF(n, g) && k < |g|
    ensures AllRows(n, g[..k + 1]) == AllRows(n, g[..k]) + RowsOf(g[k])
    decreases k
  {
    if k == 0 {
      assert g[..1][1..] == [] && g[..0] == [];
      assert AllRows(n, g[..1]) == RowsOf(g[0]) + AllRows(n, []);
    } else {
      AllRowsSnoc(n, g[1..], k - 1);
      assert g[..k + 1][1..] == g[1..][..k] && g[..k][1..] == g[1..][..k - 1];
      assert RowsOf(g[0]) + (AllRows(n, g[1..][..k - 1]) + RowsOf(g[k])) == (RowsOf(g[0]) + AllRows(n, g[1..][..k - 1])) + RowsOf(g[k]);
    }
  }

  lemma {:induction false} RowTotalPrefix(n: nat, g: seq<Block>, k: nat)
    requires n > 0 && AllWF(n, g) && k <= |g|
    ensures RowTotal(n, g[..k]) <= RowTotal(n, g)
    decreases |g| - k
  {
    if k == |g| {
      assert g[..k] == g;
    } else {
      RowTotalSnoc(n, g, k);
      RowTotalPrefix(n, g, k + 1);
    }
  }

  /** The rows of the first j blocks of the group were written through the slots from index `from` on. */
  ghost predicate GroupOut(n: nat, g: seq<Block>, j: nat, s0: Slots, s: Slots, from: nat, to: nat)
  {
    n > 0 && AllWF(n, g) && j <= |g| && SlotsOk(n, s0) && to == from + |AllRows(n, g[..j])| <= |s0.refs| &&
    AllRanked(n, CellsOf(AllRows(n, g[..j]))) && s == Store(n, s0, from, CellsOf(AllRows(n, g[..j])))
  }

  lemma GroupOutStep(n: nat, g: seq<Block>, j: nat, s0: Slots, was: Slots, s: Slots, from: nat, to: nat, next: nat)
    requires GroupOut(n, g, j, s0, was, from, to) && j < |g| && next == to + |RowsOf(g[j])| <= |s0.refs|
    requires AllRanked(n, CellsOf(RowsOf(g[j]))) && SlotsOk(n, was) && |was.refs| == |s0.refs| && s == Store(n, was, to, CellsOf(RowsOf(g[j])))
    ensures GroupOut(n, g, j + 1, s0, s, from, next)
  {
    hide Store, RowsOf;
    AllRowsSnoc(n, g, j);
    var xs, ys := CellsOf(AllRows(n, g[..j])), CellsOf(RowsOf(g[j]));
    assert CellsOf(AllRows(n, g[..j + 1])) == xs + ys;
    StoreConcat(n, s0, from, xs, ys);
  }

  lemma GroupOutStart(n: nat, g: seq<Block>, s: Slots, from: nat)
    requires n > 0 && AllWF(n, g) && SlotsOk(n, s) && from <= |s.refs|
    ensures GroupOut(n, g, 0, s, s, from, from)
  {
    assert g[..0] == [];
  }

  lemma GroupOutAll(n: nat, g: seq<Block>, s0: Slots, s: Slots, from: nat, to: nat)
    requires GroupOut(n, g, |g|, s0, s, from, to)
    ensures to == from + |AllRows(n, g)| <= |s0.refs| && AllRanked(n, CellsOf(AllRows(n, g))) && s == Store(n, s0, from, CellsOf(AllRows(n, g)))
  {
    hide Store;
    assert g[..|g|] == g;
  }

  lemma GroupOutOk(n: nat, g: seq<Block>, j: nat, s0: Slots, s: Slots, from: nat, to: nat)
    requires GroupOut(n, g, j, s0, s, from, to)
    ensures SlotsOk(n, s) && to <= |s.refs| == |s0.refs|
  {
  }

  /** Breaks the blocks of one interleaving group down into rows, one block after the other. */
  method BreakDownGroup(n: nat, cells: seq<Cell>, ghost g: seq<Block>, rows: array<Cell>, refs: array<int>, from: nat) returns (to: nat)
    requires n > 0 && IsView(n, cells, g) && AllWF(n, g) && SlotsOk(n, Slots(rows[..], refs[..]))
    requires from + |AllRows(n, g)| <= refs.Length
    modifies rows
    ensures to == from + |AllRows(n, g)| && AllRanked(n, CellsOf(AllRows(n, g)))
    ensures Slots(rows[..], refs[..]) == Store(n, Slots(old(rows[..]), refs[..]), from, CellsOf(AllRows(n, g)))
  {
    hide Store, GroupOut, RowsOf, AllRows;
    ghost var s0 := Slots(rows[..], refs[..]);
    to := from;
    var j := 0;
    GroupOutStart(n, g, s0, from);
    while j < |cells|
      invariant 0 <= j <= |cells| && from <= to && GroupOut(n, g, j, s0, Slots(rows[..], refs[..]), from, to)
    {
      ghost var was := Slots(rows[..], refs[..]);
      GroupOutOk(n, g, j, s0, was, from, to);
      RowsLeft(n, g, j, from, to, refs.Length, s0, was);
      assert g[j] == AsBlock(true, n, cells[j]);
      var next := BreakDownSpan(n, cells[j], rows, refs, to);
      GroupOutStep(n, g, j, s0, was, Slots(rows[..], refs[..]), from, to, next);
      to := next;
      j := j + 1;
    }
    GroupOutAll(n, g, s0, Slots(rows[..], refs[..]), from, to);
  }

  lemma RowsLeft(n: nat, g: seq<Block>, j: nat, from: nat, to: nat, room: nat, s0: Slots, s: Slots)
    requires GroupOut(n, g, j, s0, s, from, to) && j < |g| && from + |AllRows(n, g)| <= room
    ensures to + Prod(Front(g[j].count)) <= room
  {
    hide Store, RowsOf, AllRows;
    RowTotalSnoc(n, g, j);
    RowTotalRows(n, g[..j]);
    RowTotalRows(n, g);
    RowTotalPrefix(n, g, j + 1);
  }

  /** Emits one group from slot `from` on and returns where the next group goes. */
  method EmitGroup(n: nat, cells: seq<Cell>, ghost g: seq<Block>, rows: array<Cell>, refs: array<int>, from: nat) returns (to: nat)
    requires n > 0 && IsView(n, cells, g) && g != [] && AllWF(n, g) && SlotsOk(n, Slots(rows[..], refs[..]))
    requires from + |Pieces(n, g)| <= refs.Length
    modifies rows, refs
    ensures Merged(Slots(rows[..], refs[..]), to) == RunStep(n, Slots(old(rows[..]), old(refs[..])), from, g)
  {
    hide Store, SortSlots, MergeSlots, AllRows;
    ghost var s := Slots(rows[..], refs[..]);
    PiecesExist(n, g);
    if |cells| == 1 {
      var count := seq(n, k requires 0 <= k < n => cells[0].ext[k] + 1 - cells[0].start[k]);
      assert g[0] == AsBlock(true, n, cells[0]) == Block(cells[0].start, count);
      StoreOne(n, s, from, g);
      assert s.refs[from] == refs[from];
      rows[refs[from]] := Cell(cells[0].start, count);
      to := from + 1;
    } else {
      var end := BreakDownGroup(n, cells, g, rows, refs, from);
      SortBlocks(n, rows, refs, from, end - from);
      var k := MergeBlocks(false, n, rows, refs, from, end - from);
      to := from + k;
    }
  }

  lemma StoreOne(n: nat, s: Slots, from: nat, g: seq<Block>)
    requires n > 0 && SlotsOk(n, s) && AllWF(n, g) && |g| == 1 && AllRanked(n, CellsOf(g)) && from < |s.refs|
    ensures Store(n, s, from, CellsOf(g)) == s.(rows := s.rows[s.refs[from] := Cell(g[0].start, g[0].count)])
  {
    assert CellsOf(g)[..0] == [];
  }

  /** The groups from block j on, filled up from slot nreq on, complete the selection. */
  ghost predicate Filling(n: nat, g: seq<Block>, j: nat, s: Slots, nreq: nat, goal: Merged)
  {
    n > 0 && j <= |g| && AllWF(n, g) && AllWF(n, g[j..]) && SlotsOk(n, s) && nreq + Need(n, g[j..]) <= |s.refs| &&
    FillFrom(n, g[j..], s, nreq) == goal
  }

  lemma FillingStart(n: nat, g: seq<Block>, s: Slots)
    requires n > 0 && AllWF(n, g) && SlotsOk(n, s) && Need(n, g) <= |s.refs|
    ensures Filling(n, g, 0, s, 0, FillFrom(n, g, s, 0))
  {
    assert g[0..] == g;
  }

  lemma FillingRoom(n: nat, g: seq<Block>, j: nat, i: nat, s: Slots, nreq: nat, goal: Merged)
    requires Filling(n, g, j, s, nreq, goal) && j < i <= |g| && RunLen(n, g[j..]) == i - j
    ensures AllWF(n, g[j..i]) && SlotsOk(n, s) && nreq + |Pieces(n, g[j..i])| <= |s.refs|
    ensures Filling(n, g, i, RunStep(n, s, nreq, g[j..i]).s, RunStep(n, s, nreq, g[j..i]).len, goal)
  {
    hide RunStep, Pieces;
    Slices(n, g, j, i);
    FirstRun(n, g[j..], i - j);
  }

  lemma FillingEnd(n: nat, g: seq<Block>, s: Slots, nreq: nat, goal: Merged)
    requires Filling(n, g, |g|, s, nreq, goal)
    ensures goal == Merged(s, nreq)
  {
    assert g[|g|..] == [];
  }

  lemma NextRun(n: nat, cells: seq<Cell>, g: seq<Block>, group: seq<int>, j: nat, i: nat)
    requires n > 0 && IsView(n, cells, g) && AllWF(n, g) && j < i <= |cells|
    requires Grouping(n, g, group) && SameGroup(group, j, i) && group[i] != group[j]
    ensures AllWF(n, g[j..]) && RunLen(n, g[j..]) == i - j && AllWF(n, g[j..i]) && IsView(n, cells[j..i], g[j..i])
  {
    RunEnds(n, g, group, j, i);
    Slices(n, g, j, i);
    forall t | 0 <= t < i - j ensures CellOk(true, n, cells[j..i][t]) && AsBlock(true, n, cells[j..i][t]) == g[j..i][t] { assert cells[j..i][t] == cells[j + t]; }
  }

  /** Fills up the selections group by group. */
  method FillSelections(n: nat, cells: seq<Cell>, ghost g: seq<Block>, group: seq<int>, rows: array<Cell>, refs: array<int>) returns (nreq: nat)
    requires n > 0 && IsView(n, cells, g) && AllWF(n, g) && cells != [] && Grouping(n, g, group)
    requires SlotsOk(n, Slots(rows[..], refs[..])) && Need(n, g) <= refs.Length
    modifies rows, refs
    ensures Merged(Slots(rows[..], refs[..]), nreq) == FillFrom(n, g, Slots(old(rows[..]), old(refs[..])), 0)
  {
    hide Filling, RunStep, FillFrom, Need, Pieces;
    ghost var goal := FillFrom(n, g, Slots(rows[..], refs[..]), 0);
    nreq := 0;
    var i, j := 0, 0;
    FillingStart(n, g, Slots(rows[..], refs[..]));
    while i <= |cells|
      invariant 0 <= j <= i <= |cells| + 1 && j <= |cells| == |g|
      invariant j < |cells| ==> SameGroup(group, j, i)
      invariant Filling(n, g, j, Slots(rows[..], refs[..]), nreq, goal)
      invariant i == |cells| + 1 ==> j == |cells|
    {
      if group[i] != group[j] {
        NextRun(n, cells, g, group, j, i);
        FillingRoom(n, g, j, i, Slots(rows[..], refs[..]), nreq, goal);
        nreq := EmitGroup(n, cells[j..i], g[j..i], rows, refs, nreq);
        j := i;
      }
      i := i + 1;
    }
    FillingEnd(n, g, Slots(rows[..], refs[..]), nreq, goal);
  }

  // ----- the span list -----

  ghost predicate Spans(n: nat, cells: seq<Cell>) { forall t {:trigger cells[t]} :: 0 <= t < |cells| ==> CellOk(true, n, cells[t]) }

  /** The blocks that HDF5 lists by first and last coordinates. */
  function SpanBlocks(n: nat, cells: seq<Cell>): (bs: seq<Block>)
    requires Spans(n, cells)
    ensures AllWF(n, bs) && |bs| == |cells|
  {
    var bs := seq(|cells|, t requires 0 <= t < |cells| => AsBlock(true, n, cells[t]));
    assert AllWF(n, bs) by { forall t | 0 <= t < |bs| ensures WF(n, bs[t]) { assert bs[t] == AsBlock(true, n, cells[t]); } }
    bs
  }

  /** Coordinate c lies between the first and the last one of a span. */
  predicate InSpan(c: Coord, x: Cell) { |c| == |x.start| == |x.ext| && forall k :: 0 <= k < |c| ==> x.start[k] <= c[k] <= x.ext[k] }

  ghost predicate Selected(c: Coord, cells: seq<Cell>) { exists t :: 0 <= t < |cells| && InSpan(c, cells[t]) }

  lemma SpansCover(n: nat, cells: seq<Cell>, c: Coord)
    requires Spans(n, cells)
    ensures Covers(n, SpanBlocks(n, cells), c) <==> Selected(c, cells)
  {
    var bs := SpanBlocks(n, cells);
    forall t | 0 <= t < |cells| ensures InBox(c, bs[t]) <==> InSpan(c, cells[t])
    {
      var b, x := bs[t], cells[t];
      assert b == AsBlock(true, n, x);
      if InBox(c, b) {
        forall k | 0 <= k < |c| ensures x.start[k] <= c[k] <= x.ext[k] { assert b.start[k] <= c[k] < b.start[k] + b.count[k]; }
      }
    }
    if Covers(n, bs, c) {
      var t :| 0 <= t < |bs| && InBox(c, bs[t]);
      assert InSpan(c, cells[t]);
    }
    if Selected(c, cells) {
      var t :| 0 <= t < |cells| && InSpan(c, cells[t]);
      assert InBox(c, bs[t]);
    }
  }

  function Identity(len: nat): (refs: seq<int>)
    ensures |refs| == len
  {
    seq(len, t => t)
  }

  lemma SpansHeld(n: nat, cells: seq<Cell>)
    requires Spans(n, cells)
    ensures var s := Slots(cells, Identity(|cells|)); SlotsOk(n, s) && Holding(true, n, s, |cells|, SpanBlocks(n, cells))
  {
    var s := Slots(cells, Identity(|cells|));
    assert s.refs[..|cells|] == s.refs;
  }

  lemma MergeHeld(useEnd: bool, n: nat, s: Slots, len: nat, bs: seq<Block>)
    requires SlotsOk(n, s) && AllWF(n, bs) && 0 < len == |bs| <= |s.refs| && Holding(useEnd, n, s, len, bs)
    ensures var r := MergeSlots(useEnd, n, n, s, 0, len); r.len == |MergePasses(n, n, bs)| && Holding(useEnd, n, r.s, r.len, MergePasses(n, n, bs))
  {
    hide Holding, MergeSlots, MergePasses, MergedRefs;
    assert [] + bs == bs;
    MergedBlocks(useEnd, n, s, 0, bs, []);
    assert [] + MergePasses(n, n, bs) == MergePasses(n, n, bs);
  }

  lemma SortHeld(useEnd: bool, n: nat, s: Slots, len: nat, bs: seq<Block>)
    requires SlotsOk(n, s) && AllWF(n, bs) && len == |bs| <= |s.refs| && Holding(useEnd, n, s, len, bs)
    ensures Holding(useEnd, n, SortSlots(n, s, 0, len), len, Arrange(n, bs))
  {
    hide Holding, SortSlots, Arrange, Reordered;
    assert [] + bs == bs;
    SortedBlocks(useEnd, n, s, 0, bs, []);
    assert [] + Arrange(n, bs) == Arrange(n, bs);
  }

  /** Merge, sort, merge: the span list before grouping. */
  method Prepare(n: nat, rows: array<Cell>, refs: array<int>, ghost spans: seq<Block>) returns (nblock: nat)
    requires n > 0 && refs.Length > 0 && SlotsOk(n, Slots(rows[..], refs[..])) && AllWF(n, spans)
    requires |spans| == refs.Length && Holding(true, n, Slots(rows[..], refs[..]), refs.Length, spans)
    modifies rows, refs
    ensures 0 < nblock <= refs.Length && SlotsOk(n, Slots(rows[..], refs[..]))
    ensures Holding(true, n, Slots(rows[..], refs[..]), nblock, Prepared(n, spans)) && |Prepared(n, spans)| == nblock
  {
    hide Holding, MergeSlots, SortSlots, MergePasses, Arrange;
    MergeHeld(true, n, Slots(rows[..], refs[..]), refs.Length, spans);
    nblock := MergeBlocks(true, n, rows, refs, 0, refs.Length);
    SortHeld(true, n, Slots(rows[..], refs[..]), nblock, MergePasses(n, n, spans));
    SortBlocks(n, rows, refs, 0, nblock);
    MergeHeld(true, n, Slots(rows[..], refs[..]), nblock, Arrange(n, MergePasses(n, n, spans)));
    nblock := MergeBlocks(true, n, rows, refs, 0, nblock);
  }

  lemma HeldView(n: nat, s: Slots, len: nat, g: seq<Block>, cells: seq<Cell>)
    requires SlotsOk(n, s) && Holding(true, n, s, len, g) && |cells| == len
    requires forall t {:trigger cells[t]} :: 0 <= t < len ==> cells[t] == s.rows[s.refs[t]]
    ensures IsView(n, cells, g)
  {
    hide CellOk, AsBlock;
    var ks := s.refs[..len];
    forall t | 0 <= t < len ensures CellOk(true, n, cells[t]) && AsBlock(true, n, cells[t]) == g[t]
    {
      assert ks[t] == s.refs[t] && CellOk(true, n, s.rows[ks[t]]);
      assert BlocksAt(true, n, s.rows, ks)[t] == AsBlock(true, n, s.rows[ks[t]]);
    }
  }

  /** The cells that the slots point to, for the loops that only read. */
  method Look(n: nat, rows: array<Cell>, refs: array<int>, len: nat, ghost g: seq<Block>) returns (cells: seq<Cell>)
    requires SlotsOk(n, Slots(rows[..], refs[..])) && len <= refs.Length && Holding(true, n, Slots(rows[..], refs[..]), len, g)
    ensures |cells| == len && IsView(n, cells, g)
  {
    hide Holding, IsView;
    cells := [];
    while |cells| < len
      invariant |cells| <= len
      invariant forall t {:trigger cells[t]} :: 0 <= t < |cells| ==> cells[t] == rows[..][refs[..][t]]
    {
      assert 0 <= refs[..][|cells|] < |rows[..]|;
      cells := cells + [rows[refs[|cells|]]];
    }
    HeldView(n, Slots(rows[..], refs[..]), len, g, cells);
  }

  /** The constructor's hyperslab case: from the blocks HDF5 lists (first and last coordinates) to the
      selection's pointers to starts and counts. The list covers what the spans select exactly if no group is written
      through a shared row. */
  method Canonicalise(n: nat, spans: array<Cell>) returns (rows: array<Cell>, refs: array<int>, nsel: nat)
    requires n > 0 && spans.Length > 0 && Spans(n, spans[..]) && Disjoint(n, SpanBlocks(n, spans[..]))
    modifies spans
    ensures SlotsOk(n, Slots(rows[..], refs[..])) && nsel <= refs.Length
    ensures Shown(Slots(rows[..], refs[..]), nsel) == Result(n, SpanBlocks(n, old(spans[..])))
    ensures Shown(Slots(rows[..], refs[..]), nsel) == Canonical(n, SpanBlocks(n, old(spans[..]))) <==> Clean(n, SpanBlocks(n, old(spans[..])))
    ensures Shaped(Shown(Slots(rows[..], refs[..]), nsel)) &&
            (Clean(n, SpanBlocks(n, old(spans[..]))) <==>
               forall c :: c in TravAll(Shown(Slots(rows[..], refs[..]), nsel)) <==> Selected(c, old(spans[..])))
  {
    hide Covers, Selected, TravAll, Holding, FillFrom, Prepared, Disjoint, IsView, SpanBlocks, Canonical, Shown, Need, Clean;
    ghost var b0 := SpanBlocks(n, spans[..]);
    SpansHeld(n, spans[..]);
    var hrefs := new int[spans.Length](t => t);
    assert hrefs[..] == Identity(spans.Length);
    var nblock := Prepare(n, spans, hrefs, b0);
    ghost var g := Prepared(n, b0);
    var cells := Look(n, spans, hrefs, nblock, g);
    ViewLen(n, cells, g);
    var group := GroupBlocks(n, cells, g);
    var room := CountOutput(n, cells, g, group);
    rows := new Cell[room](_ => Cell(seq(n, k => 0), seq(n, k => 0)));
    refs := new int[room](t => t);
    assert Slots(rows[..], refs[..]) == Fresh(n, room);
    nsel := FillSelections(n, cells, g, group, rows, refs);
    ResultExactly(n, b0);
    forall c ensures Covers(n, b0, c) <==> Selected(c, old(spans[..])) { SpansCover(n, old(spans[..]), c); }
  }

  lemma ViewLen(n: nat, cells: seq<Cell>, g: seq<Block>)
    requires IsView(n, cells, g)
    ensures |cells| == |g|
  {
  }

  // ----- point selections -----

  ghost predicate Points(n: nat, pts: seq<Coord>) { forall i :: 0 <= i < |pts| ==> |pts[i]| == n }

  function PointBlocks(n: nat, pts: seq<Coord>): (bs: seq<Block>)
    requires Points(n, pts)
    ensures AllWF(n, bs) && |bs| == |pts|
  {
    var bs := seq(|pts|, i requires 0 <= i < |pts| => Block(pts[i], Ones(n)));
    assert AllWF(n, bs) by {
      forall i | 0 <= i < |pts| ensures WF(n, bs[i]) { assert bs[i] == Block(pts[i], Ones(n)); }
    }
    bs
  }

  lemma {:induction false} UnitTrav(b: Block)
    requires |b.start| == |b.count| && forall k :: 0 <= k < |b.count| ==> b.count[k] == 1
    ensures Trav(b) == [b.start]
    decreases |b.start|
  {
    if |b.start| > 0 {
      UnitTrav(Tail(b));
      UnitSlab(b);
      assert b.start == [b.start[0]] + Tail(b).start;
    }
  }

  lemma {:induction false} UnitTravAll(n: nat, bs: seq<Block>)
    requires AllWF(n, bs) && forall i, k :: 0 <= i < |bs| && 0 <= k < n ==> bs[i].count[k] == 1
    ensures TravAll(bs) == Starts(n, bs)
    decreases |bs|
  {
    hide Trav;
    if bs != [] {
      UnitTrav(bs[0]);
      UnitTravAll(n, bs[1..]);
      assert Starts(n, bs) == [bs[0].start] + Starts(n, bs[1..]);
    }
  }

  /** A point list is stored in sorted order: the traversal of the selection is a permutation of the points
      that never decreases. */
  lemma PointsSorted(n: nat, pts: seq<Coord>, r: seq<Block>, p: seq<int>)
    requires n > 0 && Points(n, pts) && AllWF(n, r) && SortedCopy(n, PointBlocks(n, pts), r, p)
    ensures var t := TravAll(MergePasses(n, n, r));
            |t| == |pts| && (forall i :: 0 <= i < |t| ==> t[i] == pts[p[i]]) &&
            (forall i, j :: 0 <= i < j < |t| ==> LessEq(t[i], t[j]))
  {
    forall i, k | 0 <= i < |r| && 0 <= k < n ensures r[i].count[k] == 1 { assert r[i].count == PointBlocks(n, pts)[p[i]].count == Ones(n); }
    UnitTravAll(n, r);
    MergeTrav(n, n, r);
    forall i | 0 <= i < |r| ensures Starts(n, r)[i] == pts[p[i]] { assert r[i] == PointBlocks(n, pts)[p[i]]; }
  }

  /** Distinct points, sorted: unit blocks at the points in increasing order. */
  lemma PointsIncrease(n: nat, pts: seq<Coord>, r: seq<Block>, p: seq<int>)
    requires Points(n, pts) && NoRepeat(pts) && AllWF(n, r) && SortedCopy(n, PointBlocks(n, pts), r, p)
    ensures Increasing(Starts(n, r)) && (forall c :: c in Starts(n, r) <==> c in pts)
    ensures forall i :: 0 <= i < |r| ==> r[i] == Block(Starts(n, r)[i], Ones(n))
  {
    var t := Starts(n, r);
    forall i | 0 <= i < |r| ensures t[i] == pts[p[i]] && r[i] == Block(t[i], Ones(n)) { assert r[i] == PointBlocks(n, pts)[p[i]]; }
    forall i, j | 0 <= i < j < |t| ensures Less(t[i], t[j])
    {
      assert LessEq(t[i], t[j]) && t[i] == pts[p[i]] && t[j] == pts[p[j]] && p[i] != p[j];
    }
    forall c ensures c in t <==> c in pts
    {
      if c in t {
        var i :| 0 <= i < |t| && t[i] == c;
        assert pts[p[i]] == c;
      }
      if c in pts {
        var v :| 0 <= v < |pts| && pts[v] == c;
        assert v in p;
        var i :| 0 <= i < |p| && p[i] == v;
        assert t[i] == c;
      }
    }
  }

  /** Distinct points keep the caller's order if and only if the caller listed them in increasing order. */
  lemma PointsKeepOrder(n: nat, pts: seq<Coord>, r: seq<Block>, p: seq<int>)
    requires n > 0 && Points(n, pts) && NoRepeat(pts) && AllWF(n, r) && SortedCopy(n, PointBlocks(n, pts), r, p)
    ensures TravAll(MergePasses(n, n, r)) == pts <==> Increasing(pts)
  {
    hide SortedCopy, MergePasses;
    PointsIncrease(n, pts, r, p);
    UnitTravAll(n, r);
    MergeTrav(n, n, r);
    assert TravAll(MergePasses(n, n, r)) == Starts(n, r);
    if Increasing(pts) { IncreasingUnique(Starts(n, r), pts); }
  }

  /** Points that are the elements of a block, listed in whatever order. */
  ghost predicate ElementsOf(pts: seq<Coord>, b: Block)
    requires |b.start| == |b.count|
  {
    NoRepeat(pts) && forall c :: c in pts <==> InBox(c, b)
  }

  /** They come out as that one block. */
  lemma PointsOfBlock(n: nat, pts: seq<Coord>, r: seq<Block>, p: seq<int>, b: Block)
    requires Points(n, pts) && AllWF(n, r) && SortedCopy(n, PointBlocks(n, pts), r, p) && WF(n, b) && ElementsOf(pts, b)
    ensures MergePasses(n, n, r) == [b]
  {
    hide SortedCopy, MergePasses, Trav;
    PointsIncrease(n, pts, r, p);
    TravIncreasing(b);
    forall c ensures c in Trav(b) <==> c in Starts(n, r) { TravMember(b, c); }
    IncreasingUnique(Starts(n, r), Trav(b));
    ElementsMerge(n, b, r);
  }

  /** In particular m points that follow one another along the last dimension are the elements of a block with count m
      there. */
  lemma ConsecutivePoints(n: nat, a: Coord, m: nat, pts: seq<Coord>)
    requires n > 0 && |a| == n && |pts| == m > 0 && forall i :: 0 <= i < m ==> pts[i] == a[n - 1 := a[n - 1] + i]
    ensures Points(n, pts) && WF(n, Block(a, Ones(n)[n - 1 := m])) && ElementsOf(pts, Block(a, Ones(n)[n - 1 := m]))
  {
    var b := Block(a, Ones(n)[n - 1 := m]);
    forall c ensures c in pts <==> InBox(c, b)
    {
      if InBox(c, b) {
        var i := c[n - 1] - a[n - 1];
        assert c == a[n - 1 := a[n - 1] + i] == pts[i];
      }
      if c in pts {
        var i :| 0 <= i < m && pts[i] == c;
        assert c[n - 1] == a[n - 1] + i;
      }
    }
    forall i, j | 0 <= i < j < m ensures pts[i] != pts[j] { assert pts[i][n - 1] == a[n - 1] + i && pts[j][n - 1] == a[n - 1] + j; }
  }

  lemma PointsHeld(n: nat, pts: seq<Coord>, s: Slots)
    requires n > 0 && Points(n, pts) && s.refs == Identity(|pts|) && |s.rows| == |pts|
    requires forall t {:trigger s.rows[t]} :: 0 <= t < |pts| ==> s.rows[t] == Cell(pts[t], Ones(n))
    ensures SlotsOk(n, s) && Holding(false, n, s, |pts|, PointBlocks(n, pts))
  {
    var ks := s.refs[..|pts|];
    assert ks == s.refs;
    forall t | 0 <= t < |pts| ensures CellOk(false, n, s.rows[ks[t]]) && AsBlock(false, n, s.rows[ks[t]]) == PointBlocks(n, pts)[t] {}
    assert BlocksAt(false, n, s.rows, ks) == PointBlocks(n, pts);
  }

  /** The constructor's point case.  The ghost results are the sorted blocks before merging and the
      permutation that the sort applied. All elements of a block come out as that block. */
  method CanonicalisePoints(n: nat, pts: seq<Coord>) returns (rows: array<Cell>, refs: array<int>, nsel: nat, ghost r: seq<Block>, ghost order: seq<int>)
    requires n > 0 && Points(n, pts)
    ensures AllWF(n, r) && SortedCopy(n, PointBlocks(n, pts), r, order)
    ensures SlotsOk(n, Slots(rows[..], refs[..])) && nsel <= refs.Length && Shown(Slots(rows[..], refs[..]), nsel) == MergePasses(n, n, r)
    ensures forall b :: WF(n, b) && ElementsOf(pts, b) ==> nsel == 1 && Shown(Slots(rows[..], refs[..]), nsel) == [b]
  {
    hide MergePasses, SortedCopy, Holding, MergeSlots, SortSlots, Arrange, Shown, Starts, ElementsOf;
    ghost var bs := PointBlocks(n, pts);
    rows := new Cell[|pts|](i requires 0 <= i < |pts| => Cell(pts[i], Ones(n)));
    refs := new int[|pts|](t => t);
    nsel := |pts|;
    PointsHeld(n, pts, Slots(rows[..], refs[..]));
    SortHeld(false, n, Slots(rows[..], refs[..]), nsel, bs);
    SortBlocks(n, rows, refs, 0, nsel);
    r, order := Arrange(n, bs), StdOrder(Starts(n, bs), |bs|);
    ArrangeSorts(n, bs);
    if nsel > 0 {
      MergeHeld(false, n, Slots(rows[..], refs[..]), nsel, r);
      nsel := MergeBlocks(false, n, rows, refs, 0, nsel);
    } else {
      assert r == [];
      EmptyPasses(n, n);
    }
    ShownHeld(n, Slots(rows[..], refs[..]), nsel, MergePasses(n, n, r));
    forall b | WF(n, b) && ElementsOf(pts, b) ensures MergePasses(n, n, r) == [b] { PointsOfBlock(n, pts, r, order, b); }
  }

  lemma {:induction false} EmptyPasses(n: nat, d: nat)
    requires d <= n
    ensures AllWF(n, []) && MergePasses(n, d, []) == []
    decreases d
  {
    if d > 0 { EmptyPasses(n, d - 1); }
  }
}
