/** Selections that the program canonicalises as intended: when no group that is broken down shrinks before the
    last group, and in particular in rank one, and in rank two if the blocks form a span tree after the first
    merge. */
module SlotSafe {
  import opened Grid
  import opened Rows
  import opened BlockSort
  import opened BlockMerge
  import opened SlotMerge
  import opened CanonicalForm
  import opened SlotFill

  // ----- passes that merge nothing -----

  lemma FirstIsKept(n: nat, d: nat, bs: seq<Block>)
    requires d < n && AllWF(n, bs) && |bs| > 1 && |MergePass(n, d, bs)| == |bs|
    ensures !Adjacent(bs[0], bs[1], d)
  {
    hide Adjacent, Union;
    UnionWF(n, bs[0], bs[1], d);
  }

  lemma {:induction false} KeptAll(n: nat, d: nat, bs: seq<Block>, ks: seq<int>)
    requires d < n && AllWF(n, bs) && |ks| == |bs| && |MergePass(n, d, bs)| == |bs|
    ensures MergePass(n, d, bs) == bs && KeptRefs(n, d, bs, ks) == ks
    decreases |bs|
  {
    hide Adjacent, Union;
    if |bs| > 1 {
      FirstIsKept(n, d, bs);
      KeptAll(n, d, bs[1..], ks[1..]);
      assert bs == [bs[0]] + bs[1..] && ks == [ks[0]] + ks[1..];
    }
  }

  lemma {:induction false} MergedAll(n: nat, d: nat, bs: seq<Block>, ks: seq<int>)
    requires d <= n && AllWF(n, bs) && |ks| == |bs| && |MergePasses(n, d, bs)| == |bs|
    ensures MergePasses(n, d, bs) == bs && MergedRefs(n, d, bs, ks) == ks
    decreases d
  {
    hide MergePass, KeptRefs;
    assert ks[..|bs|] == ks && ks[|ks|..] == [] && ks + [] == ks;
    if d > 0 {
      assert MergePasses(n, d, bs) == MergePasses(n, d - 1, MergePass(n, d - 1, bs));
      KeptAll(n, d - 1, bs, ks);
      MergedAll(n, d - 1, bs, ks);
    }
  }

  ghost predicate NoNeighbours(n: nat, d: nat, bs: seq<Block>)
    requires AllWF(n, bs) && d <= n
  {
    forall i: nat, k: nat :: k < d ==> !Continued(n, bs, i, k)
  }

  /** Block i is continued by the next one along dimension k. */
  predicate Continued(n: nat, bs: seq<Block>, i: nat, k: nat)
    requires AllWF(n, bs) && k < n
  {
    i + 1 < |bs| && Adjacent(bs[i], bs[i + 1], k)
  }

  lemma {:induction false} PassIdle(n: nat, d: nat, bs: seq<Block>)
    requires d < n && AllWF(n, bs) && forall i: nat :: !Continued(n, bs, i, d)
    ensures MergePass(n, d, bs) == bs
    decreases |bs|
  {
    hide Adjacent, Union;
    if |bs| > 1 {
      assert !Continued(n, bs, 0, d);
      forall i: nat ensures !Continued(n, bs[1..], i, d) { assert !Continued(n, bs, i + 1, d); }
      PassIdle(n, d, bs[1..]);
      assert bs == [bs[0]] + bs[1..];
    }
  }

  lemma {:induction false} MergeIdle(n: nat, d: nat, bs: seq<Block>)
    requires d <= n && AllWF(n, bs) && NoNeighbours(n, d, bs)
    ensures MergePasses(n, d, bs) == bs
    decreases d
  {
    hide Adjacent;
    if d > 0 {
      PassIdle(n, d - 1, bs);
      MergeIdle(n, d - 1, bs);
    }
  }

  // ----- groups that keep all they write -----

  /** No group but the last becomes fewer blocks than it writes. */
  ghost predicate NoEarlierMerge(n: nat, g: seq<Block>)
    requires n > 0 && AllWF(n, g)
    decreases |g|
  {
    g == [] || RunLen(n, g) == |g| ||
    (|EmitRun(n, g[..RunLen(n, g)])| == |Pieces(n, g[..RunLen(n, g)])| && NoEarlierMerge(n, g[RunLen(n, g)..]))
  }

  lemma DistinctPrefix(ks: seq<int>, k: nat)
    requires Distinct(ks) && k <= |ks|
    ensures Distinct(ks[..k])
  {
  }

  lemma ReorderedDistinct(refs: seq<int>, off: nat, p: seq<int>)
    requires Distinct(refs) && off + |p| <= |refs| && IsPerm(p, |p|)
    ensures Distinct(Reordered(refs, off, p))
  {
    var r := Reordered(refs, off, p);
    forall t, u | 0 <= t < u < |r| ensures r[t] != r[u]
    {
      var v := if off <= t < off + |p| then off + p[t - off] else t;
      var w := if off <= u < off + |p| then off + p[u - off] else u;
      assert v != w && r[t] == refs[v] && r[u] == refs[w];
      assert v < w ==> refs[v] != refs[w];
    }
  }

  lemma ThreeParts(s: seq<int>, a: nat, b: nat)
    requires a <= b <= |s|
    ensures s[..a] + s[a..b] + s[b..] == s
  {
  }

  /** Pointers stay different when a group keeps all it wrote. */
  lemma RunKeepsDistinct(n: nat, refs: seq<int>, nreq: nat, run: seq<Block>)
    requires n > 0 && AllWF(n, run) && run != [] && nreq + |Pieces(n, run)| <= |refs| && Distinct(refs)
    requires |EmitRun(n, run)| == |Pieces(n, run)|
    ensures Distinct(RunRefs(n, refs, nreq, run))
  {
    hide StdOrder, MergedRefs, MergePasses, Arrange, AllRows, Distinct, Starts;
    if |run| > 1 {
      var rows := AllRows(n, run);
      var p := StdOrder(Starts(n, rows), |rows|);
      OrderFacts(n, rows);
      ReorderedDistinct(refs, nreq, p);
      var moved := Reordered(refs, nreq, p);
      MergedAll(n, n, Arrange(n, rows), moved[nreq..nreq + |rows|]);
      ThreeParts(moved, nreq, nreq + |rows|);
    }
  }

  lemma {:induction false} NoMergeClean(n: nat, g: seq<Block>, refs: seq<int>, nreq: nat)
    requires n > 0 && AllWF(n, g) && nreq + Need(n, g) <= |refs| && Distinct(refs) && NoEarlierMerge(n, g)
    ensures CleanFrom(n, g, refs, nreq)
    decreases |g|
  {
    hide RunRefs, EmitRun, Pieces, Distinct, EmitsWithin;
    if g != [] {
      var k := RunLen(n, g);
      var run := g[..k];
      DistinctPrefix(refs, nreq + |Pieces(n, run)|);
      assert EmitsWithin(n, run);
      if k == |g| {
        assert g[k..] == [];
      } else {
        RunKeepsDistinct(n, refs, nreq, run);
        NoMergeClean(n, g[k..], RunRefs(n, refs, nreq, run), nreq + |EmitRun(n, run)|);
      }
    }
  }

  /** If no group that is broken down shrinks, except perhaps the last group, the program makes the canonical
      list: in particular if there is one group only, or if only the last one is broken down. */
  lemma NoEarlierMergeIsClean(n: nat, spans: seq<Block>)
    requires n > 0 && AllWF(n, spans) && NoEarlierMerge(n, Prepared(n, spans))
    ensures Clean(n, spans)
  {
    hide Prepared, NoEarlierMerge, CleanFrom;
    var g := Prepared(n, spans);
    NoMergeClean(n, g, Fresh(n, Need(n, g)).refs, 0);
  }

  // ----- rank one -----

  lemma {:induction false} SinglesMergeNothing(n: nat, g: seq<Block>)
    requires n > 0 && AllWF(n, g) && forall i :: 0 <= i < |g| - 1 ==> Less(Last(g[i]), g[i + 1].start)
    ensures NoEarlierMerge(n, g)
    decreases |g|
  {
    hide Less;
    if |g| > 1 {
      assert Less(Last(g[0]), g[0 + 1].start);
      forall i | 0 <= i < |g[1..]| - 1 ensures Less(Last(g[1..][i]), g[1..][i + 1].start) { assert Less(Last(g[i + 1]), g[i + 1 + 1].start); }
      SinglesMergeNothing(n, g[1..]);
    }
  }

  /** In one dimension every selection comes out as intended. */
  lemma RankOneIsClean(spans: seq<Block>)
    requires AllWF(1, spans) && Disjoint(1, spans)
    ensures Clean(1, spans)
  {
    hide Prepared, Less, Disjoint;
    var g := Prepared(1, spans);
    PreparedFacts(1, spans);
    forall i | 0 <= i < |g| - 1 ensures Less(Last(g[i]), g[i + 1].start) { OneDimensionApart(g, i); }
    SinglesMergeNothing(1, g);
    NoEarlierMergeIsClean(1, spans);
  }

  lemma OneDimensionApart(g: seq<Block>, i: nat)
    requires AllWF(1, g) && Disjoint(1, g) && KeysIncrease(1, false, g) && i + 1 < |g|
    ensures Less(Last(g[i]), g[i + 1].start)
  {
    assert Apart(g[i], g[i + 1]) && Less(Key(false, g[i]), Key(false, g[i + 1]));
    assert IsRow(1, g[i]) && IsRow(1, g[i + 1]);
    RowsApart(1, g[i], g[i + 1]);
  }

  // ----- rank two -----

  /** As in a span tree of rank two: two blocks cover the same rows of the array and do not touch, or the rows
      of the earlier one come before those of the later one. */
  ghost predicate TreeOfTwo(g: seq<Block>)
    requires AllWF(2, g)
  {
    forall i, j :: 0 <= i < j < |g| ==> Beside(g[i], g[j]) || Above(g[i], g[j])
  }

  ghost predicate Beside(a: Block, b: Block)
    requires WF(2, a) && WF(2, b)
  {
    a.start[0] == b.start[0] && a.count[0] == b.count[0] && a.start[1] + a.count[1] < b.start[1]
  }

  ghost predicate Above(a: Block, b: Block)
    requires WF(2, a) && WF(2, b)
  {
    a.start[0] + a.count[0] <= b.start[0]
  }

  /** The row at height r of a block. */
  function RowOf(b: Block, r: nat): Block
    requires WF(2, b)
  {
    Block([r, b.start[1]], [1, b.count[1]])
  }

  predicate HasRow(b: Block, r: nat)
    requires WF(2, b)
  {
    b.start[0] <= r < b.start[0] + b.count[0]
  }

  lemma RowMember(b: Block, x: Block) returns (r: nat)
    requires WF(2, b) && x in RowsOf(b)
    ensures HasRow(b, r) && x == RowOf(b, r)
  {
    hide Prod;
    RowCount(b);
    assert Front(b.count) == [b.count[0]] && Prod([b.count[0]]) == b.count[0] by { ProdOne(b.count[0]); }
    var t :| 0 <= t < |RowsOf(b)| && RowsOf(b)[t] == x;
    RowAtHeight(b, t);
    r := b.start[0] + t;
  }

  lemma ProdOne(k: nat)
    ensures Prod([k]) == k
  {
    assert [k][1..] == [];
  }

  lemma RowAtHeight(b: Block, t: nat)
    requires WF(2, b) && t < b.count[0]
    ensures t < |RowsOf(b)| && RowsOf(b)[t] == RowOf(b, b.start[0] + t)
  {
    RowPosition(b, [t]);
    assert Linear(Front(b.count), [t]) == t by { assert Front(b.count) == [b.count[0]] && [t][1..] == [] && [b.count[0]][1..] == []; }
    assert RowAt(b, [t]) == RowOf(b, b.start[0] + t);
  }

  lemma {:induction false} RowsMember(g: seq<Block>, x: Block) returns (i: nat, r: nat)
    requires AllWF(2, g) && x in AllRows(2, g)
    ensures i < |g| && HasRow(g[i], r) && x == RowOf(g[i], r)
    decreases |g|
  {
    hide RowsOf;
    if x in RowsOf(g[0]) {
      i := 0;
      r := RowMember(g[0], x);
    } else {
      i, r := RowsMember(g[1..], x);
      i := i + 1;
    }
  }

  lemma {:induction false} RowIsThere(g: seq<Block>, i: nat, r: nat)
    requires AllWF(2, g) && i < |g| && HasRow(g[i], r)
    ensures RowOf(g[i], r) in AllRows(2, g)
    decreases |g|
  {
    hide RowsOf;
    if i == 0 {
      RowAtHeight(g[0], r - g[0].start[0]);
    } else {
      RowIsThere(g[1..], i - 1, r);
    }
  }

  lemma TreeAt(g: seq<Block>, i: nat, j: nat)
    requires AllWF(2, g) && TreeOfTwo(g) && i < j < |g|
    ensures Beside(g[i], g[j]) || Above(g[i], g[j])
  {
  }

  lemma TreeTail(g: seq<Block>)
    requires AllWF(2, g) && TreeOfTwo(g) && g != []
    ensures AllWF(2, g[1..]) && TreeOfTwo(g[1..])
  {
    hide Beside, Above;
    forall i, j | 0 <= i < j < |g[1..]| ensures Beside(g[1..][i], g[1..][j]) || Above(g[1..][i], g[1..][j])
    {
      TreeAt(g, i + 1, j + 1);
    }
  }

  /** The blocks of a group cover the same rows. */
  lemma {:induction false} GroupBeside(g: seq<Block>)
    requires AllWF(2, g) && TreeOfTwo(g) && g != []
    ensures forall i, j :: 0 <= i < j < RunLen(2, g) ==> Beside(g[i], g[j])
    decreases |g|
  {
    var k := RunLen(2, g);
    if k > 1 {
      var t := g[1..];
      TreeTail(g);
      GroupBeside(t);
      assert !Less(Last(g[0]), g[1].start);
      TreeAt(g, 0, 1);
      forall j | 0 < j < k ensures Beside(g[0], g[j])
      {
        if j > 1 { assert Beside(t[0], t[j - 1]); }
        TreeAt(g, 0, j);
      }
      forall i, j | 0 <= i < j < k ensures Beside(g[i], g[j])
      {
        if i > 0 { assert Beside(t[i - 1], t[j - 1]); }
      }
    }
  }

  ghost predicate SameMembers(s: seq<Block>, l: seq<Block>) { forall x :: x in s <==> x in l }

  /** Neighbours in the sorted rows of such a group do not continue one another. */
  lemma SortedRowsApart(run: seq<Block>, s: seq<Block>, t: nat, d: nat)
    requires AllWF(2, run) && AllWF(2, s) && |run| > 1 && (forall i, j :: 0 <= i < j < |run| ==> Beside(run[i], run[j]))
    requires SameMembers(s, AllRows(2, run)) && KeysIncrease(2, false, s) && t + 1 < |s| && d < 2
    ensures !Adjacent(s[t], s[t + 1], d)
  {
    hide AllRows, Less, KeysIncrease, Beside, HasRow, RowOf, Adjacent;
    var i, r := RowsMember(run, s[t]);
    var j, q := RowsMember(run, s[t + 1]);
    var a, b := RowOf(run[i], r), RowOf(run[j], q);
    SideBySide(run, i, j, r, q);
    if Adjacent(a, b, 0) {
      Stacked(run, i, j, r, q);
      Between(run, s, t, i, r, if i + 1 < |run| then i + 1 else i - 1);
    }
    EitherWay(a, b, d);
  }

  lemma EitherWay(a: Block, b: Block, d: nat)
    requires WF(2, a) && WF(2, b) && d < 2 && !Adjacent(a, b, 0) && !Adjacent(a, b, 1)
    ensures !Adjacent(a, b, d)
  {
    hide Adjacent;
  }

  lemma SideBySide(run: seq<Block>, i: nat, j: nat, r: nat, q: nat)
    requires AllWF(2, run) && (forall i, j :: 0 <= i < j < |run| ==> Beside(run[i], run[j])) && i < |run| && j < |run|
    ensures !Adjacent(RowOf(run[i], r), RowOf(run[j], q), 1)
  {
    if i < j { assert Beside(run[i], run[j]); }
    if j < i { assert Beside(run[j], run[i]); }
    assert run[i].count[1] > 0;
  }

  lemma Stacked(run: seq<Block>, i: nat, j: nat, r: nat, q: nat)
    requires AllWF(2, run) && (forall i, j :: 0 <= i < j < |run| ==> Beside(run[i], run[j])) && i < |run| && j < |run|
    requires Adjacent(RowOf(run[i], r), RowOf(run[j], q), 0)
    ensures i == j && q == r + 1
  {
    hide Beside;
    ColumnsDiffer(run, i, j);
    assert RowOf(run[i], r).start[1] == RowOf(run[j], q).start[1];
  }

  lemma ColumnsDiffer(run: seq<Block>, i: nat, j: nat)
    requires AllWF(2, run) && (forall i, j :: 0 <= i < j < |run| ==> Beside(run[i], run[j])) && i < |run| && j < |run|
    ensures i != j ==> run[i].start[1] != run[j].start[1]
  {
    if i < j { assert Beside(run[i], run[j]); }
    if j < i { assert Beside(run[j], run[i]); }
  }

  /** A row of another block of the group lies between a row of a block and the row below it. */
  lemma Between(run: seq<Block>, s: seq<Block>, t: nat, i: nat, r: nat, o: nat)
    requires AllWF(2, run) && AllWF(2, s) && (forall i, j :: 0 <= i < j < |run| ==> Beside(run[i], run[j]))
    requires SameMembers(s, AllRows(2, run)) && KeysIncrease(2, false, s) && t + 1 < |s|
    requires i < |run| && o < |run| && i != o && HasRow(run[i], r) && HasRow(run[i], r + 1)
    requires s[t] == RowOf(run[i], r)
    ensures s[t + 1] != RowOf(run[i], r + 1)
  {
    hide AllRows, Less, KeysIncrease, WF, Beside, HasRow, SameMembers, RowOf;
    var h := if i < o then r else r + 1;
    OtherHasRow(run, i, o, h);
    RowIsThere(run, o, h);
    var x := RowOf(run[o], h);
    var q := PlaceOf(s, AllRows(2, run), x);
    RowsInOrder(run, i, o, r);
    KeysStrict(s, q, t);
    KeysStrict(s, t + 1, q);
  }

  lemma PlaceOf(s: seq<Block>, l: seq<Block>, x: Block) returns (q: nat)
    requires SameMembers(s, l) && x in l
    ensures q < |s| && s[q] == x
  {
    assert x in s;
    q :| 0 <= q < |s| && s[q] == x;
  }

  lemma OtherHasRow(run: seq<Block>, i: nat, o: nat, h: nat)
    requires AllWF(2, run) && (forall i, j :: 0 <= i < j < |run| ==> Beside(run[i], run[j]))
    requires i < |run| && o < |run| && HasRow(run[i], h)
    ensures HasRow(run[o], h)
  {
    if i < o { assert Beside(run[i], run[o]); }
    if o < i { assert Beside(run[o], run[i]); }
  }

  lemma RowsInOrder(run: seq<Block>, i: nat, o: nat, r: nat)
    requires AllWF(2, run) && (forall i, j :: 0 <= i < j < |run| ==> Beside(run[i], run[j])) && i < |run| && o < |run| && i != o
    ensures var x := RowOf(run[o], if i < o then r else r + 1).start;
            Less(RowOf(run[i], r).start, x) && Less(x, RowOf(run[i], r + 1).start) &&
            !Less(x, RowOf(run[i], r).start) && !Less(RowOf(run[i], r + 1).start, x) &&
            x != RowOf(run[i], r).start && x != RowOf(run[i], r + 1).start
  {
    hide Less;
    assert if i < o then Beside(run[i], run[o]) else Beside(run[o], run[i]);
    var a, b, x := RowOf(run[i], r).start, RowOf(run[i], r + 1).start, RowOf(run[o], if i < o then r else r + 1).start;
    LessByPrefix(a, x, if i < o then 1 else 0);
    LessByPrefix(x, b, if i < o then 0 else 1);
    LessAsym(a, x);
    LessAsym(x, b);
  }

  lemma KeysStrict(s: seq<Block>, q: nat, t: nat)
    requires AllWF(2, s) && KeysIncrease(2, false, s) && q < |s| && t < |s|
    ensures q < t ==> Less(s[q].start, s[t].start)
    ensures t < q ==> Less(s[t].start, s[q].start)
  {
    hide Less;
    assert q < t ==> Less(Key(false, s[q]), Key(false, s[t]));
    assert t < q ==> Less(Key(false, s[t]), Key(false, s[q]));
  }

  lemma TreeGroupKeeps(run: seq<Block>)
    requires AllWF(2, run) && run != [] && Disjoint(2, run) && forall i, j :: 0 <= i < j < |run| ==> Beside(run[i], run[j])
    ensures |EmitRun(2, run)| == |Pieces(2, run)|
  {
    hide AllRows, Disjoint, KeysIncrease, Adjacent, Arrange;
    if |run| > 1 {
      var s := Arrange(2, AllRows(2, run));
      SortedRows(2, run);
      forall i: nat, k: nat | k < 2 ensures !Continued(2, s, i, k)
      {
        if i + 1 < |s| { SortedRowsApart(run, s, i, k); }
      }
      MergeIdle(2, 2, s);
    }
  }

  lemma {:induction false} TreeKeeps(g: seq<Block>)
    requires AllWF(2, g) && Disjoint(2, g) && TreeOfTwo(g)
    ensures NoEarlierMerge(2, g)
    decreases |g|
  {
    hide EmitRun, Pieces, Disjoint, RunLen, Beside, Above;
    if g != [] {
      var k := RunLen(2, g);
      GroupBeside(g);
      SplitDisjoint(2, g, k);
      forall i, j | 0 <= i < j < |g[..k]| ensures Beside(g[..k][i], g[..k][j]) { assert Beside(g[i], g[j]); }
      TreeGroupKeeps(g[..k]);
      var t := g[k..];
      assert TreeOfTwo(t) by { forall i, j | 0 <= i < j < |t| ensures Beside(t[i], t[j]) || Above(t[i], t[j]) { assert t[i] == g[k + i] && t[j] == g[k + j]; } }
      TreeKeeps(t);
    }
  }

  /** In two dimensions every selection whose prepared blocks form a span tree comes out as intended. */
  lemma RankTwoIsClean(spans: seq<Block>)
    requires AllWF(2, spans) && Disjoint(2, spans) && TreeOfTwo(Prepared(2, spans))
    ensures Clean(2, spans)
  {
    hide Prepared, TreeOfTwo, Disjoint;
    PreparedFacts(2, spans);
    TreeKeeps(Prepared(2, spans));
    NoEarlierMergeIsClean(2, spans);
  }
}
