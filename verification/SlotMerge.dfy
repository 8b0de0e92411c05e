/** `merge_blocks` on pointers: neighbours are coalesced in place, one dimension after the other, by moving
    pointers and growing the row of the slot kept. */
module SlotMerge {
  import opened Grid
  import opened BlockSort
  import opened BlockMerge

  /** The block of a cell, which gives the last coordinate of a span or the count of a selection. */
  function AsBlock(useEnd: bool, n: nat, x: Cell): (b: Block)
    requires CellOk(useEnd, n, x)
    ensures WF(n, b)
  {
    Block(x.start, if useEnd then seq(|x.ext|, k requires 0 <= k < |x.ext| => x.ext[k] + 1 - x.start[k]) else x.ext)
  }

  predicate CellOk(useEnd: bool, n: nat, x: Cell)
  {
    |x.start| == n && |x.ext| == n &&
    forall k :: 0 <= k < n ==> if useEnd then x.start[k] <= x.ext[k] else x.ext[k] > 0
  }

  predicate Ranked(n: nat, x: Cell) { |x.start| == |x.ext| == n }

  /** b continues a along dimension d: the comparisons of the innermost loop. */
  predicate Joinable(useEnd: bool, n: nat, d: nat, a: Cell, b: Cell)
    requires d < n && Ranked(n, a) && Ranked(n, b)
  {
    forall k :: 0 <= k < n ==>
      if k == d then (if useEnd then a.ext[k] + 1 == b.start[k] else a.start[k] + a.ext[k] == b.start[k])
      else b.start[k] == a.start[k] && b.ext[k] == a.ext[k]
  }

  lemma JoinableIsAdjacent(useEnd: bool, n: nat, d: nat, a: Cell, b: Cell)
    requires d < n && CellOk(useEnd, n, a) && CellOk(useEnd, n, b)
    ensures Joinable(useEnd, n, d, a, b) <==> Adjacent(AsBlock(useEnd, n, a), AsBlock(useEnd, n, b), d)
  {
    var x, y := AsBlock(useEnd, n, a), AsBlock(useEnd, n, b);
    if Adjacent(x, y, d) {
      forall k | 0 <= k < n
        ensures if k == d then (if useEnd then a.ext[k] + 1 == b.start[k] else a.start[k] + a.ext[k] == b.start[k])
                else b.start[k] == a.start[k] && b.ext[k] == a.ext[k]
      {
        if k != d { assert x.start[k] == y.start[k] && x.count[k] == y.count[k]; }
      }
    }
    if Joinable(useEnd, n, d, a, b) {
      forall k | 0 <= k < n && k != d ensures x.start[k] == y.start[k] && x.count[k] == y.count[k] {}
      assert x.start[d] + x.count[d] == y.start[d];
    }
  }

  /** The dimension-by-dimension comparison. */
  method Continues(useEnd: bool, n: nat, d: nat, a: Cell, b: Cell) returns (r: bool)
    requires d < n && Ranked(n, a) && Ranked(n, b)
    ensures r <==> Joinable(useEnd, n, d, a, b)
  {
    var k := 0;
    while k < n
      invariant 0 <= k <= n
      invariant forall t :: 0 <= t < k ==>
        if t == d then (if useEnd then a.ext[t] + 1 == b.start[t] else a.start[t] + a.ext[t] == b.start[t])
        else b.start[t] == a.start[t] && b.ext[t] == a.ext[t]
    {
      if k == d {
        if useEnd {
          if a.ext[k] + 1 != b.start[k] { return false; }
        } else {
          if a.start[k] + a.ext[k] != b.start[k] { return false; }
        }
      } else {
        if b.start[k] != a.start[k] || b.ext[k] != a.ext[k] { return false; }
      }
      k := k + 1;
    }
    return true;
  }

  function Fold(useEnd: bool, d: nat, a: Cell, b: Cell): Cell
    requires d < |a.ext| && d < |b.ext|
  {
    Cell(a.start, a.ext[d := if useEnd then b.ext[d] else a.ext[d] + b.ext[d]])
  }

  lemma FoldIsUnion(useEnd: bool, n: nat, d: nat, a: Cell, b: Cell)
    requires d < n && CellOk(useEnd, n, a) && CellOk(useEnd, n, b)
    requires Adjacent(AsBlock(useEnd, n, a), AsBlock(useEnd, n, b), d)
    ensures CellOk(useEnd, n, Fold(useEnd, d, a, b))
    ensures AsBlock(useEnd, n, Fold(useEnd, d, a, b)) == Union(AsBlock(useEnd, n, a), AsBlock(useEnd, n, b), d)
  {
    var x, y := AsBlock(useEnd, n, a), AsBlock(useEnd, n, b);
    assert x.start[d] + x.count[d] == y.start[d];
  }

  lemma FoldRanked(useEnd: bool, n: nat, d: nat, a: Cell, b: Cell)
    requires d < n && Ranked(n, a) && Ranked(n, b)
    ensures Ranked(n, Fold(useEnd, d, a, b))
  {
  }

  // ----- the loops on slots -----

  /** Slots and how many of a range of them are in use. */
  datatype Merged = Merged(s: Slots, len: nat)

  /** The pass along dimension d over slots off to off + len - 1, from slot i on, with slot j open. */
  function PassFrom(useEnd: bool, n: nat, d: nat, s: Slots, off: nat, len: nat, i: nat, j: nat): (r: Merged)
    requires d < n && SlotsOk(n, s) && j < i && j < len && off + len <= |s.refs|
    ensures SlotsOk(n, r.s) && |r.s.refs| == |s.refs| && |r.s.rows| == |s.rows| && 0 < r.len <= len
    decreases len - i
  {
    if i >= len then Merged(s, j + 1)
    else
      var p, q := s.refs[off + j], s.refs[off + i];
      if Joinable(useEnd, n, d, s.rows[p], s.rows[q]) then
        PassFrom(useEnd, n, d, s.(rows := s.rows[p := Fold(useEnd, d, s.rows[p], s.rows[q])]), off, len, i + 1, j)
      else
        PassFrom(useEnd, n, d, s.(refs := s.refs[off + j + 1 := q]), off, len, i + 1, j + 1)
  }

  /** The passes along dimensions d-1, d-2, ..., 0. */
  function MergeSlots(useEnd: bool, n: nat, d: nat, s: Slots, off: nat, len: nat): (r: Merged)
    requires d <= n && SlotsOk(n, s) && off + len <= |s.refs| && len > 0
    ensures SlotsOk(n, r.s) && |r.s.refs| == |s.refs| && |r.s.rows| == |s.rows| && 0 < r.len <= len
    decreases d
  {
    if d == 0 then Merged(s, len)
    else
      var p := PassFrom(useEnd, n, d - 1, s, off, len, 1, 0);
      MergeSlots(useEnd, n, d - 1, p.s, off, p.len)
  }

  /** One pass along dimension d. */
  method Pass(useEnd: bool, n: nat, d: nat, rows: array<Cell>, refs: array<int>, off: nat, len: nat) returns (len': nat)
    requires d < n && SlotsOk(n, Slots(rows[..], refs[..])) && off + len <= refs.Length && len > 0
    modifies rows, refs
    ensures Merged(Slots(rows[..], refs[..]), len') == PassFrom(useEnd, n, d, Slots(old(rows[..]), old(refs[..])), off, len, 1, 0)
  {
    hide Joinable, Fold;
    ghost var goal := PassFrom(useEnd, n, d, Slots(rows[..], refs[..]), off, len, 1, 0);
    var j, i := 0, 1;
    while i < len
      invariant 1 <= i && j < i && j < len && SlotsOk(n, Slots(rows[..], refs[..]))
      invariant PassFrom(useEnd, n, d, Slots(rows[..], refs[..]), off, len, i, j) == goal
    {
      ghost var s := Slots(rows[..], refs[..]);
      var p, q := refs[off + j], refs[off + i];
      assert s.refs[off + j] == p && s.refs[off + i] == q;
      var joins := Continues(useEnd, n, d, rows[p], rows[q]);
      if joins {
        FoldRanked(useEnd, n, d, rows[p], rows[q]);
        rows[p] := Fold(useEnd, d, rows[p], rows[q]);
        assert Slots(rows[..], refs[..]) == s.(rows := s.rows[p := Fold(useEnd, d, s.rows[p], s.rows[q])]);
      } else {
        j := j + 1;
        refs[off + j] := refs[off + i];
        assert Slots(rows[..], refs[..]) == s.(refs := s.refs[off + j := q]);
      }
      i := i + 1;
    }
    len' := j + 1;
  }

  /** `merge_blocks`. */
  method MergeBlocks(useEnd: bool, n: nat, rows: array<Cell>, refs: array<int>, off: nat, len: nat) returns (len': nat)
    requires SlotsOk(n, Slots(rows[..], refs[..])) && off + len <= refs.Length && len > 0
    modifies rows, refs
    ensures Merged(Slots(rows[..], refs[..]), len') == MergeSlots(useEnd, n, n, Slots(old(rows[..]), old(refs[..])), off, len)
  {
    hide PassFrom;
    ghost var goal := MergeSlots(useEnd, n, n, Slots(rows[..], refs[..]), off, len);
    len' := len;
    var d := n;
    while d > 0
      invariant 0 <= d <= n && SlotsOk(n, Slots(rows[..], refs[..])) && 0 < len' <= len
      invariant MergeSlots(useEnd, n, d, Slots(rows[..], refs[..]), off, len') == goal
    {
      d := d - 1;
      len' := Pass(useEnd, n, d, rows, refs, off, len');
    }
  }

  // ----- slots that point to different rows -----

  ghost predicate Distinct(ks: seq<int>) { forall t, u :: 0 <= t < u < |ks| ==> ks[t] != ks[u] }

  ghost predicate AllCells(useEnd: bool, n: nat, rows: seq<Cell>, ks: seq<int>)
  {
    forall t {:trigger ks[t]} :: 0 <= t < |ks| ==> 0 <= ks[t] < |rows| && CellOk(useEnd, n, rows[ks[t]])
  }

  /** The blocks that pointers ks point to. */
  function BlocksAt(useEnd: bool, n: nat, rows: seq<Cell>, ks: seq<int>): (bs: seq<Block>)
    requires AllCells(useEnd, n, rows, ks)
    ensures AllWF(n, bs) && |bs| == |ks|
  {
    var bs := seq(|ks|, t requires 0 <= t < |ks| => AsBlock(useEnd, n, rows[ks[t]]));
    assert AllWF(n, bs) by {
      forall t | 0 <= t < |ks| ensures WF(n, bs[t]) { assert bs[t] == AsBlock(useEnd, n, rows[ks[t]]); }
    }
    bs
  }

  /** The pointers that a pass keeps. */
  function KeptRefs(n: nat, d: nat, bs: seq<Block>, ks: seq<int>): (r: seq<int>)
    requires d < n && AllWF(n, bs) && |ks| == |bs|
    ensures |r| == |MergePass(n, d, bs)| <= |ks|
    decreases |bs|
  {
    if |bs| <= 1 then ks
    else if Adjacent(bs[0], bs[1], d) then
      UnionWF(n, bs[0], bs[1], d);
      KeptRefs(n, d, [Union(bs[0], bs[1], d)] + bs[2..], [ks[0]] + ks[2..])
    else [ks[0]] + KeptRefs(n, d, bs[1..], ks[1..])
  }

  /** The pointers of all slots of a range after the passes, the first |bs| of which were in use: those behind
      the new length keep pointing to where they did. */
  function MergedRefs(n: nat, d: nat, bs: seq<Block>, ks: seq<int>): (r: seq<int>)
    requires d <= n && AllWF(n, bs) && |bs| <= |ks|
    ensures |r| == |ks|
    decreases d
  {
    if d == 0 then ks
    else
      var kept := KeptRefs(n, d - 1, bs, ks[..|bs|]);
      MergedRefs(n, d - 1, MergePass(n, d - 1, bs), kept + ks[|kept|..])
  }

  lemma {:induction false} KeptFacts(n: nat, d: nat, bs: seq<Block>, ks: seq<int>)
    requires d < n && AllWF(n, bs) && |ks| == |bs| && Distinct(ks)
    ensures Distinct(KeptRefs(n, d, bs, ks)) && forall x :: x in KeptRefs(n, d, bs, ks) ==> x in ks
    ensures bs != [] ==> KeptRefs(n, d, bs, ks) != [] && KeptRefs(n, d, bs, ks)[0] == ks[0]
    decreases |bs|
  {
    hide Adjacent, Union;
    if |bs| > 1 {
      if Adjacent(bs[0], bs[1], d) {
        UnionWF(n, bs[0], bs[1], d);
        var l := [ks[0]] + ks[2..];
        assert Distinct(l);
        KeptFacts(n, d, [Union(bs[0], bs[1], d)] + bs[2..], l);
      } else {
        KeptFacts(n, d, bs[1..], ks[1..]);
        var r := KeptRefs(n, d, bs[1..], ks[1..]);
        forall t | 0 <= t < |r| ensures r[t] != ks[0] { assert r[t] in ks[1..]; }
      }
    }
  }

  lemma BlocksUpdate(useEnd: bool, n: nat, rows: seq<Cell>, ks: seq<int>, x: Cell)
    requires AllCells(useEnd, n, rows, ks) && Distinct(ks) && |ks| >= 2 && CellOk(useEnd, n, x)
    ensures var now := rows[ks[0] := x]; var l := [ks[0]] + ks[2..];
            AllCells(useEnd, n, now, l) && Distinct(l) &&
            BlocksAt(useEnd, n, now, l) == [AsBlock(useEnd, n, x)] + BlocksAt(useEnd, n, rows, ks)[2..]
  {
    var now := rows[ks[0] := x];
    var l := [ks[0]] + ks[2..];
    forall t | 0 <= t < |l| ensures CellOk(useEnd, n, now[l[t]]) && (t > 0 ==> l[t] == ks[t + 1] && now[l[t]] == rows[ks[t + 1]])
    {
      if t > 0 { assert l[t] == ks[t + 1] && ks[0] != ks[t + 1]; }
    }
    var v, w := BlocksAt(useEnd, n, now, l), BlocksAt(useEnd, n, rows, ks);
    forall t | 0 < t < |l| ensures v[t] == w[t + 1] {}
  }

  lemma BlocksTail(useEnd: bool, n: nat, rows: seq<Cell>, ks: seq<int>, k: nat)
    requires AllCells(useEnd, n, rows, ks) && k <= |ks|
    ensures AllCells(useEnd, n, rows, ks[k..]) && BlocksAt(useEnd, n, rows, ks[k..]) == BlocksAt(useEnd, n, rows, ks)[k..]
    ensures AllCells(useEnd, n, rows, ks[..k]) && BlocksAt(useEnd, n, rows, ks[..k]) == BlocksAt(useEnd, n, rows, ks)[..k]
  {
    forall t | 0 <= t < |ks[k..]| ensures 0 <= ks[k..][t] < |rows| && CellOk(useEnd, n, rows[ks[k..][t]]) { assert ks[k..][t] == ks[k + t]; }
    forall t | 0 <= t < |ks[..k]| ensures 0 <= ks[..k][t] < |rows| && CellOk(useEnd, n, rows[ks[..k][t]]) { assert ks[..k][t] == ks[t]; }
  }

  /** What a pass leaves: the kept slots, the other slots as they were, rows that no slot of the range points to
      as they were. */
  ghost predicate PassLeaves(useEnd: bool, n: nat, d: nat, s: Slots, r: Merged, off: nat, j: nat, ks: seq<int>)
    requires d < n && AllCells(useEnd, n, s.rows, ks)
  {
    var out := KeptRefs(n, d, BlocksAt(useEnd, n, s.rows, ks), ks);
    r.len == j + |out| && off + r.len <= |s.refs| == |r.s.refs| && |r.s.rows| == |s.rows| &&
    r.s.refs[..off + j] == s.refs[..off + j] && r.s.refs[off + j..off + r.len] == out && r.s.refs[off + r.len..] == s.refs[off + r.len..] &&
    AllCells(useEnd, n, r.s.rows, out) && BlocksAt(useEnd, n, r.s.rows, out) == MergePass(n, d, BlocksAt(useEnd, n, s.rows, ks)) &&
    forall y :: 0 <= y < |s.rows| && y !in ks ==> r.s.rows[y] == s.rows[y]
  }

  lemma {:induction false} PassValue(useEnd: bool, n: nat, d: nat, s: Slots, off: nat, len: nat, i: nat, j: nat, ks: seq<int>)
    requires d < n && SlotsOk(n, s) && j < i <= len && off + len <= |s.refs|
    requires ks == [s.refs[off + j]] + s.refs[off + i..off + len] && Distinct(ks) && AllCells(useEnd, n, s.rows, ks)
    ensures PassLeaves(useEnd, n, d, s, PassFrom(useEnd, n, d, s, off, len, i, j), off, j, ks)
    decreases len - i
  {
    hide Joinable, Fold, Adjacent, Union, CellOk, AsBlock, PassLeaves, BlocksAt, SlotsOk, Distinct, MergePass, KeptRefs;
    if i >= len {
      PassStops(useEnd, n, d, s, off, j, ks);
    } else {
      var p, q := s.refs[off + j], s.refs[off + i];
      var rest := s.refs[off + (i + 1)..off + len];
      assert s.refs[off + i..off + len] == [q] + rest;
      assert ks[0] == p && ks[1] == q && ks[2..] == rest;
      FirstTwo(useEnd, n, d, s.rows, ks);
      if Joinable(useEnd, n, d, s.rows[p], s.rows[q]) {
        var x := Fold(useEnd, d, s.rows[p], s.rows[q]);
        var s', l := s.(rows := s.rows[p := x]), [p] + rest;
        BlocksUpdate(useEnd, n, s.rows, ks, x);
        RankedFold(n, useEnd, s, p, x);
        PassValue(useEnd, n, d, s', off, len, i + 1, j, l);
        PassJoined(useEnd, n, d, s, s', PassFrom(useEnd, n, d, s', off, len, i + 1, j), off, j, ks, x);
      } else {
        var s' := s.(refs := s.refs[off + j + 1 := q]);
        assert s'.refs[off + (i + 1)..off + len] == rest && ks[1..] == [q] + rest;
        BlocksTail(useEnd, n, s.rows, ks, 1);
        DistinctTail(ks);
        RefMoved(n, s, off + i, off + j + 1);
        PassValue(useEnd, n, d, s', off, len, i + 1, j + 1, ks[1..]);
        PassMoved(useEnd, n, d, s, s', PassFrom(useEnd, n, d, s', off, len, i + 1, j + 1), off, j, ks);
      }
    }
  }

  lemma RefMoved(n: nat, s: Slots, from: nat, to: nat)
    requires SlotsOk(n, s) && from < |s.refs| && to < |s.refs|
    ensures SlotsOk(n, s.(refs := s.refs[to := s.refs[from]]))
  {
  }

  lemma DistinctTail(ks: seq<int>)
    requires Distinct(ks) && ks != []
    ensures Distinct(ks[1..])
  {
  }

  lemma PassStops(useEnd: bool, n: nat, d: nat, s: Slots, off: nat, j: nat, ks: seq<int>)
    requires d < n && AllCells(useEnd, n, s.rows, ks) && off + j < |s.refs| && ks == [s.refs[off + j]]
    ensures PassLeaves(useEnd, n, d, s, Merged(s, j + 1), off, j, ks)
  {
    assert s.refs[off + j..off + (j + 1)] == ks;
  }

  /** What the comparison of the first two pointers decides. */
  lemma FirstTwo(useEnd: bool, n: nat, d: nat, rows: seq<Cell>, ks: seq<int>)
    requires d < n && AllCells(useEnd, n, rows, ks) && |ks| >= 2
    ensures Ranked(n, rows[ks[0]]) && Ranked(n, rows[ks[1]])
    ensures var (a, b, bs) := (rows[ks[0]], rows[ks[1]], BlocksAt(useEnd, n, rows, ks));
            (Joinable(useEnd, n, d, a, b) <==> Adjacent(bs[0], bs[1], d)) &&
            (Joinable(useEnd, n, d, a, b) ==>
               CellOk(useEnd, n, Fold(useEnd, d, a, b)) && AsBlock(useEnd, n, Fold(useEnd, d, a, b)) == Union(bs[0], bs[1], d))
  {
    hide Joinable, Fold, Adjacent, Union;
    assert CellOk(useEnd, n, rows[ks[0]]) && CellOk(useEnd, n, rows[ks[1]]);
    JoinableIsAdjacent(useEnd, n, d, rows[ks[0]], rows[ks[1]]);
    if Joinable(useEnd, n, d, rows[ks[0]], rows[ks[1]]) { FoldIsUnion(useEnd, n, d, rows[ks[0]], rows[ks[1]]); }
  }

  lemma RankedFold(n: nat, useEnd: bool, s: Slots, p: int, x: Cell)
    requires SlotsOk(n, s) && 0 <= p < |s.rows| && CellOk(useEnd, n, x)
    ensures SlotsOk(n, s.(rows := s.rows[p := x]))
  {
  }

  lemma PassJoined(useEnd: bool, n: nat, d: nat, s: Slots, s': Slots, r: Merged, off: nat, j: nat, ks: seq<int>, x: Cell)
    requires d < n && Distinct(ks) && AllCells(useEnd, n, s.rows, ks) && |ks| >= 2 && s' == s.(rows := s.rows[ks[0] := x])
    requires CellOk(useEnd, n, x)
    requires var bs := BlocksAt(useEnd, n, s.rows, ks); Adjacent(bs[0], bs[1], d) && AsBlock(useEnd, n, x) == Union(bs[0], bs[1], d)
    requires AllCells(useEnd, n, s'.rows, [ks[0]] + ks[2..]) && PassLeaves(useEnd, n, d, s', r, off, j, [ks[0]] + ks[2..])
    ensures PassLeaves(useEnd, n, d, s, r, off, j, ks)
  {
    hide Adjacent, Union, CellOk, AsBlock;
    var bs := BlocksAt(useEnd, n, s.rows, ks);
    UnionWF(n, bs[0], bs[1], d);
    BlocksUpdate(useEnd, n, s.rows, ks, x);
    assert MergePass(n, d, bs) == MergePass(n, d, [Union(bs[0], bs[1], d)] + bs[2..]);
    forall y | 0 <= y < |s.rows| && y !in ks ensures r.s.rows[y] == s.rows[y]
    {
      assert y !in [ks[0]] + ks[2..];
    }
  }

  lemma PassMoved(useEnd: bool, n: nat, d: nat, s: Slots, s': Slots, r: Merged, off: nat, j: nat, ks: seq<int>)
    requires d < n && Distinct(ks) && AllCells(useEnd, n, s.rows, ks) && |ks| >= 2
    requires off + j + 1 < |s.refs| && s.refs[off + j] == ks[0] && s' == s.(refs := s.refs[off + j + 1 := ks[1]])
    requires var bs := BlocksAt(useEnd, n, s.rows, ks); !Adjacent(bs[0], bs[1], d)
    requires AllCells(useEnd, n, s.rows, ks[1..]) && PassLeaves(useEnd, n, d, s', r, off, j + 1, ks[1..])
    ensures PassLeaves(useEnd, n, d, s, r, off, j, ks)
  {
    hide Adjacent, Union, CellOk, AsBlock, KeptRefs, MergePass, BlocksAt;
    BlocksTail(useEnd, n, s.rows, ks, 1);
    DistinctTail(ks);
    KeepFirst(useEnd, n, d, s.rows, ks);
    var out := KeptRefs(n, d, BlocksAt(useEnd, n, s.rows, ks[1..]), ks[1..]);
    RangeCons(s.refs, s'.refs, r.s.refs, off, j, r.len, out);
    assert r.s.rows[ks[0]] == s.rows[ks[0]];
    AllCellsCons(useEnd, n, r.s.rows, ks[0], out);
  }

  /** The first pointer is kept when the second does not join it. */
  lemma KeepFirst(useEnd: bool, n: nat, d: nat, rows: seq<Cell>, ks: seq<int>)
    requires d < n && Distinct(ks) && AllCells(useEnd, n, rows, ks) && |ks| >= 2 && AllCells(useEnd, n, rows, ks[1..])
    requires var bs := BlocksAt(useEnd, n, rows, ks); !Adjacent(bs[0], bs[1], d)
    ensures var bs, rest := BlocksAt(useEnd, n, rows, ks), BlocksAt(useEnd, n, rows, ks[1..]);
            KeptRefs(n, d, bs, ks) == [ks[0]] + KeptRefs(n, d, rest, ks[1..]) &&
            MergePass(n, d, bs) == [AsBlock(useEnd, n, rows[ks[0]])] + MergePass(n, d, rest) && ks[0] !in ks[1..]
  {
    hide Adjacent, Union, CellOk, AsBlock;
    BlocksTail(useEnd, n, rows, ks, 1);
  }

  lemma RangeCons(was: seq<int>, mid: seq<int>, now: seq<int>, off: nat, j: nat, len: nat, out: seq<int>)
    requires off + j + 1 < |was| && |mid| == |was| == |now| && len == j + 1 + |out| && off + len <= |was|
    requires mid == was[off + j + 1 := mid[off + j + 1]]
    requires now[..off + (j + 1)] == mid[..off + (j + 1)] && now[off + (j + 1)..off + len] == out && now[off + len..] == mid[off + len..] && |out| >= 1
    ensures now[..off + j] == was[..off + j] && now[off + j..off + len] == [was[off + j]] + out && now[off + len..] == was[off + len..]
  {
    assert now[..off + j] == now[..off + (j + 1)][..off + j] && was[..off + j] == mid[..off + (j + 1)][..off + j];
    assert now[off + j] == now[..off + (j + 1)][off + j] == mid[off + j] == was[off + j];
    assert mid[off + len..] == was[off + len..];
  }

  lemma AllCellsCons(useEnd: bool, n: nat, rows: seq<Cell>, k: int, ks: seq<int>)
    requires 0 <= k < |rows| && CellOk(useEnd, n, rows[k]) && AllCells(useEnd, n, rows, ks)
    ensures AllCells(useEnd, n, rows, [k] + ks) && BlocksAt(useEnd, n, rows, [k] + ks) == [AsBlock(useEnd, n, rows[k])] + BlocksAt(useEnd, n, rows, ks)
  {
  }

  /** What the passes leave of slots that point to different rows. */
  ghost predicate MergeLeaves(useEnd: bool, n: nat, d: nat, s: Slots, r: Merged, off: nat, len: nat, ks: seq<int>)
    requires d <= n && len <= |ks| && AllCells(useEnd, n, s.rows, ks[..len])
  {
    var bs := BlocksAt(useEnd, n, s.rows, ks[..len]);
    r.len == |MergePasses(n, d, bs)| && off + |ks| <= |s.refs| == |r.s.refs| && |r.s.rows| == |s.rows| &&
    r.s.refs == s.refs[..off] + MergedRefs(n, d, bs, ks) + s.refs[off + |ks|..] &&
    AllCells(useEnd, n, r.s.rows, r.s.refs[off..off + r.len]) && Distinct(r.s.refs[off..off + r.len]) &&
    BlocksAt(useEnd, n, r.s.rows, r.s.refs[off..off + r.len]) == MergePasses(n, d, bs) &&
    (forall x :: x in r.s.refs[off..off + r.len] ==> x in ks[..len]) &&
    forall y :: 0 <= y < |s.rows| && y !in ks[..len] ==> r.s.rows[y] == s.rows[y]
  }

  lemma {:induction false} MergeValue(useEnd: bool, n: nat, d: nat, s: Slots, off: nat, len: nat, ks: seq<int>)
    requires d <= n && SlotsOk(n, s) && 0 < len <= |ks| && off + |ks| <= |s.refs| && ks == s.refs[off..off + |ks|]
    requires Distinct(ks[..len]) && AllCells(useEnd, n, s.rows, ks[..len])
    ensures MergeLeaves(useEnd, n, d, s, MergeSlots(useEnd, n, d, s, off, len), off, len, ks)
    decreases d
  {
    hide PassFrom, AfterPass, MergeLeaves, SlotsOk, Distinct, AllCells;
    if d == 0 {
      FirstPart(s.refs, off, len, ks);
      MergesDone(useEnd, n, s, off, len, ks);
    } else {
      var p := PassFrom(useEnd, n, d - 1, s, off, len, 1, 0);
      var kept := OnePass(useEnd, n, d - 1, s, off, len, ks);
      NextPass(useEnd, n, d - 1, s, p, off, len, ks, kept);
      var l := kept + ks[|kept|..];
      MergeValue(useEnd, n, d - 1, p.s, off, p.len, l);
      MergeChain(useEnd, n, d, s, p, MergeSlots(useEnd, n, d - 1, p.s, off, p.len), off, len, ks, kept);
    }
  }

  /** One pass over the slots of a range: the pointers it keeps stand in front, the others where they were. */
  ghost predicate AfterPass(useEnd: bool, n: nat, d: nat, s: Slots, p: Merged, off: nat, len: nat, ks: seq<int>, kept: seq<int>)
    requires d < n && len <= |ks| && AllCells(useEnd, n, s.rows, ks[..len])
  {
    var bs, l := BlocksAt(useEnd, n, s.rows, ks[..len]), kept + if |kept| <= |ks| then ks[|kept|..] else [];
    kept == KeptRefs(n, d, bs, ks[..len]) && p.len == |kept| <= |ks| && off + |ks| <= |s.refs| == |p.s.refs| && |p.s.rows| == |s.rows| &&
    p.s.refs[..off] == s.refs[..off] && p.s.refs[off + |ks|..] == s.refs[off + |ks|..] && l == p.s.refs[off..off + |ks|] &&
    Distinct(kept) && AllCells(useEnd, n, p.s.rows, kept) && BlocksAt(useEnd, n, p.s.rows, kept) == MergePass(n, d, bs) &&
    (forall y :: 0 <= y < |s.rows| && y !in ks[..len] ==> p.s.rows[y] == s.rows[y]) &&
    forall x :: x in kept ==> x in ks[..len]
  }

  lemma OnePass(useEnd: bool, n: nat, d: nat, s: Slots, off: nat, len: nat, ks: seq<int>) returns (kept: seq<int>)
    requires d < n && SlotsOk(n, s) && 0 < len <= |ks| && off + |ks| <= |s.refs| && ks == s.refs[off..off + |ks|]
    requires Distinct(ks[..len]) && AllCells(useEnd, n, s.rows, ks[..len])
    ensures AfterPass(useEnd, n, d, s, PassFrom(useEnd, n, d, s, off, len, 1, 0), off, len, ks, kept)
  {
    hide PassFrom, PassLeaves, AfterPass, SlotsOk, Distinct, AllCells;
    FirstPart(s.refs, off, len, ks);
    HeadAndRest(s.refs, off, len);
    PassValue(useEnd, n, d, s, off, len, 1, 0, ks[..len]);
    kept := PassKeeps(useEnd, n, d, s, PassFrom(useEnd, n, d, s, off, len, 1, 0), off, len, ks);
  }

  lemma PassKeeps(useEnd: bool, n: nat, d: nat, s: Slots, p: Merged, off: nat, len: nat, ks: seq<int>) returns (kept: seq<int>)
    requires d < n && len <= |ks| && off + |ks| <= |s.refs| && ks == s.refs[off..off + |ks|]
    requires Distinct(ks[..len]) && AllCells(useEnd, n, s.rows, ks[..len]) && PassLeaves(useEnd, n, d, s, p, off, 0, ks[..len])
    ensures AfterPass(useEnd, n, d, s, p, off, len, ks, kept)
  {
    hide CellOk, AsBlock, KeptRefs, MergePass, BlocksAt, PassLeaves, Distinct, AllCells;
    var live := ks[..len];
    var bs := BlocksAt(useEnd, n, s.rows, live);
    kept := KeptRefs(n, d, bs, live);
    KeptFacts(n, d, bs, live);
    PassFacts(useEnd, n, d, s, p, off, live);
    PassRange(s, p.s, off, |kept|, ks, kept + ks[|kept|..]);
  }

  lemma NextPass(useEnd: bool, n: nat, d: nat, s: Slots, p: Merged, off: nat, len: nat, ks: seq<int>, kept: seq<int>)
    requires d < n && len <= |ks| && AllCells(useEnd, n, s.rows, ks[..len]) && AfterPass(useEnd, n, d, s, p, off, len, ks, kept)
    ensures |kept| == p.len <= |ks| && off + |ks| <= |s.refs| == |p.s.refs|
    ensures var l := kept + ks[|kept|..];
            |l| == |ks| && l == p.s.refs[off..off + |l|] && l[..p.len] == kept && Distinct(kept) && AllCells(useEnd, n, p.s.rows, kept)
  {
    hide CellOk, AsBlock, KeptRefs, MergePass, BlocksAt, Distinct, AllCells;
  }

  lemma FirstPart(refs: seq<int>, off: nat, len: nat, ks: seq<int>)
    requires len <= |ks| && off + |ks| <= |refs| && ks == refs[off..off + |ks|]
    ensures refs[off..off + len] == ks[..len]
  {
  }

  lemma HeadAndRest(refs: seq<int>, off: nat, len: nat)
    requires 0 < len && off + len <= |refs|
    ensures refs[off..off + len] == [refs[off + 0]] + refs[off + 1..off + len]
  {
  }

  lemma MergesDone(useEnd: bool, n: nat, s: Slots, off: nat, len: nat, ks: seq<int>)
    requires 0 < len <= |ks| && off + |ks| <= |s.refs| && ks == s.refs[off..off + |ks|]
    requires Distinct(ks[..len]) && AllCells(useEnd, n, s.rows, ks[..len])
    ensures MergeLeaves(useEnd, n, 0, s, Merged(s, len), off, len, ks)
  {
    assert s.refs[off..off + len] == ks[..len];
    assert s.refs == s.refs[..off] + ks + s.refs[off + |ks|..];
  }

  lemma PassFacts(useEnd: bool, n: nat, d: nat, s: Slots, r: Merged, off: nat, ks: seq<int>)
    requires d < n && AllCells(useEnd, n, s.rows, ks) && PassLeaves(useEnd, n, d, s, r, off, 0, ks)
    ensures var out := KeptRefs(n, d, BlocksAt(useEnd, n, s.rows, ks), ks);
            r.len == |out| && off + r.len <= |s.refs| == |r.s.refs| && |r.s.rows| == |s.rows| &&
            r.s.refs[..off] == s.refs[..off] && r.s.refs[off..off + r.len] == out && r.s.refs[off + r.len..] == s.refs[off + r.len..] &&
            AllCells(useEnd, n, r.s.rows, out) && BlocksAt(useEnd, n, r.s.rows, out) == MergePass(n, d, BlocksAt(useEnd, n, s.rows, ks)) &&
            forall y :: 0 <= y < |s.rows| && y !in ks ==> r.s.rows[y] == s.rows[y]
  {
    hide CellOk, AsBlock, KeptRefs, MergePass, BlocksAt;
  }

  lemma PassRange(s: Slots, p: Slots, off: nat, k: nat, ks: seq<int>, l: seq<int>)
    requires k <= |ks| && off + |ks| <= |s.refs| == |p.refs| && ks == s.refs[off..off + |ks|] && |l| == |ks|
    requires l == p.refs[off..off + k] + ks[k..] && p.refs[..off] == s.refs[..off] && p.refs[off + k..] == s.refs[off + k..]
    ensures l == p.refs[off..off + |l|] && p.refs[off + |ks|..] == s.refs[off + |ks|..]
  {
    forall t | 0 <= t < |l| ensures l[t] == p.refs[off + t]
    {
      if t >= k { assert p.refs[off + t] == p.refs[off + k..][t - k] == s.refs[off + k..][t - k] == s.refs[off + t] == ks[t]; }
    }
    var x, y := p.refs[off + |ks|..], s.refs[off + |ks|..];
    forall t | 0 <= t < |x| ensures x[t] == y[t]
    {
      assert p.refs[off + k..][|ks| - k + t] == s.refs[off + k..][|ks| - k + t];
    }
  }

  lemma MergeChain(useEnd: bool, n: nat, d: nat, s: Slots, p: Merged, r: Merged, off: nat, len: nat, ks: seq<int>, kept: seq<int>)
    requires 0 < d <= n && 0 < len <= |ks| && off + |ks| <= |s.refs| && AllCells(useEnd, n, s.rows, ks[..len])
    requires AfterPass(useEnd, n, d - 1, s, p, off, len, ks, kept)
    requires |kept| == p.len <= |ks| && (kept + ks[|kept|..])[..p.len] == kept && AllCells(useEnd, n, p.s.rows, kept)
    requires MergeLeaves(useEnd, n, d - 1, p.s, r, off, p.len, kept + ks[|kept|..])
    ensures MergeLeaves(useEnd, n, d, s, r, off, len, ks)
  {
    hide CellOk, AsBlock, KeptRefs, MergePass, BlocksAt, Distinct, AllCells;
    var bs := BlocksAt(useEnd, n, s.rows, ks[..len]);
    var l := kept + ks[|kept|..];
    assert MergePasses(n, d, bs) == MergePasses(n, d - 1, MergePass(n, d - 1, bs));
    assert MergedRefs(n, d, bs, ks) == MergedRefs(n, d - 1, MergePass(n, d - 1, bs), l);
    forall y | 0 <= y < |s.rows| && y !in ks[..len] ensures r.s.rows[y] == s.rows[y]
    {
      assert y !in l[..|kept|];
    }
  }

  // ----- slots that avoid an element -----

  /** None of the first hi slots points to a row that contains c. */
  ghost predicate Avoids(n: nat, s: Slots, hi: nat, c: Coord)
    requires SlotsOk(n, s)
  {
    hi <= |s.refs| && forall t {:trigger s.refs[t]} :: 0 <= t < hi ==> RowAvoids(s.rows[s.refs[t]], c)
  }

  predicate RowAvoids(x: Cell, c: Coord)
    requires |x.start| == |x.ext|
  {
    !InBox(c, Block(x.start, x.ext))
  }

  lemma FoldCovers(n: nat, d: nat, a: Cell, b: Cell, c: Coord)
    requires d < n && Ranked(n, a) && Ranked(n, b) && Joinable(false, n, d, a, b)
    ensures InBox(c, Block(Fold(false, d, a, b).start, Fold(false, d, a, b).ext)) ==> InBox(c, Block(a.start, a.ext)) || InBox(c, Block(b.start, b.ext))
  {
    var x := Fold(false, d, a, b);
    if InBox(c, Block(x.start, x.ext)) && c[d] >= a.start[d] + a.ext[d] {
      forall k | 0 <= k < n ensures b.start[k] <= c[k] < b.start[k] + b.ext[k] { assert x.start[k] <= c[k] < x.start[k] + x.ext[k]; }
    }
  }

  lemma FoldAvoids(n: nat, d: nat, a: Cell, b: Cell, c: Coord)
    requires d < n && Ranked(n, a) && Ranked(n, b) && Joinable(false, n, d, a, b) && RowAvoids(a, c) && RowAvoids(b, c)
    ensures RowAvoids(Fold(false, d, a, b), c)
  {
    hide InBox, Joinable, Fold;
    FoldRanked(false, n, d, a, b);
    FoldCovers(n, d, a, b, c);
  }

  /** A pass brings no element back, whatever rows the slots share. */
  lemma {:induction false} PassAvoids(n: nat, d: nat, s: Slots, off: nat, len: nat, i: nat, j: nat, hi: nat, c: Coord)
    requires d < n && SlotsOk(n, s) && j < i && j < len && off + len <= hi && Avoids(n, s, hi, c)
    ensures Avoids(n, PassFrom(false, n, d, s, off, len, i, j).s, hi, c)
    decreases len - i
  {
    hide Joinable, Fold, RowAvoids;
    if i < len {
      var p, q := s.refs[off + j], s.refs[off + i];
      if Joinable(false, n, d, s.rows[p], s.rows[q]) {
        FoldAvoids(n, d, s.rows[p], s.rows[q], c);
        FoldRanked(false, n, d, s.rows[p], s.rows[q]);
        PassAvoids(n, d, s.(rows := s.rows[p := Fold(false, d, s.rows[p], s.rows[q])]), off, len, i + 1, j, hi, c);
      } else {
        PassAvoids(n, d, s.(refs := s.refs[off + j + 1 := q]), off, len, i + 1, j + 1, hi, c);
      }
    }
  }

  lemma {:induction false} MergeAvoids(n: nat, d: nat, s: Slots, off: nat, len: nat, hi: nat, c: Coord)
    requires d <= n && SlotsOk(n, s) && len > 0 && off + len <= hi && Avoids(n, s, hi, c)
    ensures Avoids(n, MergeSlots(false, n, d, s, off, len).s, hi, c)
    decreases d
  {
    hide PassFrom, Avoids;
    if d > 0 {
      AvoidsRange(n, s, hi, c);
      PassAvoids(n, d - 1, s, off, len, 1, 0, hi, c);
      var p := PassFrom(false, n, d - 1, s, off, len, 1, 0);
      MergeAvoids(n, d - 1, p.s, off, p.len, hi, c);
    }
  }

  lemma AvoidsRange(n: nat, s: Slots, hi: nat, c: Coord)
    requires SlotsOk(n, s) && Avoids(n, s, hi, c)
    ensures hi <= |s.refs|
  {
  }
}
