/** That merging merges: a pass leaves no neighbours that continue one another along its dimension, and the slices of a
    block, cut along any leading dimensions, merge into the block. */
module MergeFull {
  import opened Grid
  import opened Rows
  import opened BlockSort
  import opened BlockMerge

  // ----- after a pass -----

  /** Block a ends along d where b starts, and they agree in every other dimension. */
  predicate EndsAtStart(n: nat, d: nat, a: Block, b: Block)
    requires |a.start| == |a.count| == |b.start| == |b.count| == n && d < n
  {
    a.start[d] + a.count[d] == b.start[d] && a.start[..d] == b.start[..d] && a.start[d + 1..] == b.start[d + 1..] &&
    a.count[..d] == b.count[..d] && a.count[d + 1..] == b.count[d + 1..]
  }

  lemma EndsAtStartIs(n: nat, d: nat, a: Block, b: Block)
    requires |a.start| == |a.count| == |b.start| == |b.count| == n && d < n && EndsAtStart(n, d, a, b)
    ensures Adjacent(a, b, d)
  {
    forall k | 0 <= k < n && k != d ensures a.start[k] == b.start[k] && a.count[k] == b.count[k]
    {
      if k < d { assert a.start[..d][k] == b.start[..d][k] && a.count[..d][k] == b.count[..d][k]; } else {
        assert a.start[d + 1..][k - d - 1] == b.start[d + 1..][k - d - 1] && a.count[d + 1..][k - d - 1] == b.count[d + 1..][k - d - 1];
      }
    }
  }

  /** No two neighbours continue one another along d. */
  ghost predicate Settled(n: nat, d: nat, bs: seq<Block>)
    requires d < n && AllWF(n, bs)
  {
    forall i :: 0 <= i < |bs| - 1 ==> !EndsAtStart(n, d, bs[i], bs[i + 1])
  }

  lemma FewSettled(n: nat, d: nat, bs: seq<Block>)
    requires d < n && AllWF(n, bs) && |bs| <= 1
    ensures Settled(n, d, bs)
  {
  }

  lemma SettledCons(n: nat, d: nat, b: Block, t: seq<Block>)
    requires d < n && WF(n, b) && AllWF(n, t) && t != [] && Settled(n, d, t) && !EndsAtStart(n, d, b, t[0])
    ensures AllWF(n, [b] + t) && Settled(n, d, [b] + t)
  {
    hide EndsAtStart;
    var r := [b] + t;
    forall i | 0 <= i < |r| - 1 ensures !EndsAtStart(n, d, r[i], r[i + 1])
    {
      if i > 0 { assert r[i] == t[i - 1] && r[i + 1] == t[i - 1 + 1]; }
    }
  }

  lemma {:induction false} PassHead(n: nat, d: nat, bs: seq<Block>)
    requires d < n && AllWF(n, bs) && bs != []
    ensures var r := MergePass(n, d, bs)[0];
            r.start == bs[0].start && forall k :: 0 <= k < n && k != d ==> r.count[k] == bs[0].count[k]
    decreases |bs|
  {
    hide Adjacent;
    if |bs| > 1 && Adjacent(bs[0], bs[1], d) {
      UnionWF(n, bs[0], bs[1], d);
      PassHead(n, d, [Union(bs[0], bs[1], d)] + bs[2..]);
    }
  }

  /** After the pass along dimension d no block ends, along d, where the next one starts while they agree in every other
      dimension. */
  lemma {:induction false} PassApart(n: nat, d: nat, bs: seq<Block>)
    requires d < n && AllWF(n, bs)
    ensures var r := MergePass(n, d, bs); Settled(n, d, r)
    decreases |bs|
  {
    hide EndsAtStart, Settled, Union;
    if |bs| <= 1 {
      FewSettled(n, d, bs);
    } else {
      if Adjacent(bs[0], bs[1], d) {
        UnionWF(n, bs[0], bs[1], d);
        PassApart(n, d, [Union(bs[0], bs[1], d)] + bs[2..]);
      } else {
        PassApart(n, d, bs[1..]);
        PassHead(n, d, bs[1..]);
        if EndsAtStart(n, d, bs[0], MergePass(n, d, bs[1..])[0]) { EndsAtStartIs(n, d, bs[0], MergePass(n, d, bs[1..])[0]); }
        SettledCons(n, d, bs[0], MergePass(n, d, bs[1..]));
      }
    }
  }

  /** Every dimension has its pass, the last one first: of what the passes along dimensions n - 1 to k leave, no two
      neighbours continue one another along k, and the passes along k - 1 to 0 are still to come. */
  lemma {:induction false} PassesApart(n: nat, d: nat, k: nat, bs: seq<Block>) returns (r: seq<Block>)
    requires k < d <= n && AllWF(n, bs)
    ensures AllWF(n, r) && MergePasses(n, d, bs) == MergePasses(n, k, r)
    ensures Settled(n, k, r)
    decreases d
  {
    hide MergePass, Settled;
    if d == k + 1 {
      PassApart(n, k, bs);
      r := MergePass(n, k, bs);
    } else {
      r := PassesApart(n, d - 1, k, MergePass(n, d - 1, bs));
    }
  }

  // ----- slices -----

  /** The block cut into slices one element wide in the first k dimensions, in row-major order. */
  function Slices(k: nat, b: Block): (bs: seq<Block>)
    requires |b.start| == |b.count| >= k
    decreases k
  {
    if k == 0 then [b] else RowSlabs(b.start[0], b.count[0], Slices(k - 1, Tail(b)))
  }

  /** All slices start at x in dimension 0. */
  ghost predicate AtHead(bs: seq<Block>, x: nat)
  {
    forall i :: 0 <= i < |bs| ==> |bs[i].start| > 0 && bs[i].start[0] == x
  }

  ghost predicate NotAtHead(bs: seq<Block>, x: nat)
  {
    forall i :: 0 <= i < |bs| ==> |bs[i].start| > 0 && bs[i].start[0] != x
  }

  lemma PrependWF(n: nat, h: nat, rs: seq<Block>)
    requires n > 0 && AllWF(n - 1, rs)
    ensures AllWF(n, PrependRows(h, rs)) && AtHead(PrependRows(h, rs), h)
  {
    var r := PrependRows(h, rs);
    forall i | 0 <= i < |r| ensures WF(n, r[i]) && r[i].start[0] == h
    {
      assert WF(n - 1, rs[i]) && r[i] == Block([h] + rs[i].start, [1] + rs[i].count);
      forall k | 0 <= k < n ensures r[i].count[k] > 0 { if k > 0 { assert r[i].count[k] == rs[i].count[k - 1]; } }
    }
  }

  lemma {:induction false} SlabsWF(n: nat, h: nat, m: nat, rs: seq<Block>)
    requires n > 0 && AllWF(n - 1, rs)
    ensures AllWF(n, RowSlabs(h, m, rs)) && forall i :: 0 <= i < |RowSlabs(h, m, rs)| ==> RowSlabs(h, m, rs)[i].start[0] >= h
    decreases m
  {
    if m > 0 {
      PrependWF(n, h, rs);
      SlabsWF(n, h + 1, m - 1, rs);
    }
  }

  lemma {:induction false} SlicesWF(n: nat, k: nat, b: Block)
    requires WF(n, b) && k <= n
    ensures AllWF(n, Slices(k, b)) && Slices(k, b) != []
    decreases k
  {
    hide RowSlabs;
    if k > 0 {
      TailWF(n, b);
      SlicesWF(n - 1, k - 1, Tail(b));
      SlabsWF(n, b.start[0], b.count[0], Slices(k - 1, Tail(b)));
      RowSlabsLen(b.start[0], b.count[0], Slices(k - 1, Tail(b)));
      MulMono(1, b.count[0], |Slices(k - 1, Tail(b))|);
    }
  }

  lemma TailWF(n: nat, b: Block)
    requires WF(n, b) && n > 0
    ensures WF(n - 1, Tail(b))
  {
    forall k | 0 <= k < n - 1 ensures Tail(b).count[k] > 0 { assert Tail(b).count[k] == b.count[k + 1]; }
  }

  lemma AdjacentPrepend(n: nat, d: nat, h: nat, a: Block, b: Block)
    requires 0 < d < n && WF(n - 1, a) && WF(n - 1, b)
    ensures var x, y := Block([h] + a.start, [1] + a.count), Block([h] + b.start, [1] + b.count);
            (Adjacent(x, y, d) <==> Adjacent(a, b, d - 1)) &&
            Union(x, y, d) == Block([h] + Union(a, b, d - 1).start, [1] + Union(a, b, d - 1).count)
  {
    var x, y := Block([h] + a.start, [1] + a.count), Block([h] + b.start, [1] + b.count);
    if Adjacent(x, y, d) {
      AdjacentTail(x, y, d);
      assert Tail(x) == a && Tail(y) == b;
    }
    if Adjacent(a, b, d - 1) {
      forall k | 0 <= k < n && k != d ensures x.start[k] == y.start[k] && x.count[k] == y.count[k]
      {
        if k > 0 { assert x.start[k] == a.start[k - 1] && y.start[k] == b.start[k - 1]; }
      }
      assert x.start[d] == a.start[d - 1] && x.count[d] == a.count[d - 1] && y.start[d] == b.start[d - 1];
    }
    var u := Union(a, b, d - 1);
    assert ([1] + a.count)[d := a.count[d - 1] + b.count[d - 1]] == [1] + u.count;
  }

  lemma PrependOne(h: nat, x: Block, rs: seq<Block>)
    ensures PrependRows(h, [x] + rs) == [Block([h] + x.start, [1] + x.count)] + PrependRows(h, rs)
  {
  }

  /** A pass along a dimension other than the first goes on within a slab. */
  lemma {:induction false} PassPrepend(n: nat, d: nat, h: nat, rs: seq<Block>)
    requires 0 < d < n && AllWF(n - 1, rs)
    ensures AllWF(n, PrependRows(h, rs)) && MergePass(n, d, PrependRows(h, rs)) == PrependRows(h, MergePass(n - 1, d - 1, rs))
    decreases |rs|
  {
    hide Adjacent, Union, PrependRows;
    PrependWF(n, h, rs);
    PrependLen(h, rs);
    if |rs| > 1 {
      var p := PrependRows(h, rs);
      PrependAt(h, rs, 0);
      PrependAt(h, rs, 1);
      AdjacentPrepend(n, d, h, rs[0], rs[1]);
      if Adjacent(rs[0], rs[1], d - 1) {
        var u := Union(rs[0], rs[1], d - 1);
        UnionWF(n - 1, rs[0], rs[1], d - 1);
        PrependOne(h, u, rs[2..]);
        PrependDrop(h, rs, 2);
        PassPrepend(n, d, h, [u] + rs[2..]);
      } else {
        PrependDrop(h, rs, 1);
        PassPrepend(n, d, h, rs[1..]);
        PrependOne(h, rs[0], MergePass(n - 1, d - 1, rs[1..]));
      }
    }
  }

  lemma PrependLen(h: nat, rs: seq<Block>)
    ensures |PrependRows(h, rs)| == |rs|
  {
  }

  lemma PrependAt(h: nat, rs: seq<Block>, i: nat)
    requires i < |rs|
    ensures PrependRows(h, rs)[i] == Block([h] + rs[i].start, [1] + rs[i].count)
  {
  }

  lemma PrependDrop(h: nat, rs: seq<Block>, i: nat)
    requires i <= |rs|
    ensures PrependRows(h, rs)[i..] == PrependRows(h, rs[i..])
  {
  }

  lemma HeadsDiffer(n: nat, d: nat, x: nat, a: seq<Block>, b: seq<Block>)
    requires 0 < d < n && AllWF(n, a) && AllWF(n, b) && |a| == 1 && AtHead(a, x) && NotAtHead(b, x) && b != []
    ensures !Adjacent(a[0], b[0], d)
  {
    assert a[0].start[0] != b[0].start[0];
  }

  lemma HeadRest(n: nat, d: nat, x: nat, a: seq<Block>)
    requires d < n && AllWF(n, a) && |a| > 1 && AtHead(a, x)
    ensures AtHead(a[1..], x) && WF(n, Union(a[0], a[1], d)) && AtHead([Union(a[0], a[1], d)] + a[2..], x)
  {
    UnionWF(n, a[0], a[1], d);
    assert Union(a[0], a[1], d).start == a[0].start;
    var t := [Union(a[0], a[1], d)] + a[2..];
    forall i | 0 <= i < |t| ensures |t[i].start| > 0 && t[i].start[0] == x { if i > 0 { assert t[i] == a[i + 1]; } }
  }

  /** It does not reach from one slab into another. */
  lemma {:induction false} PassSplit(n: nat, d: nat, x: nat, a: seq<Block>, b: seq<Block>)
    requires 0 < d < n && AllWF(n, a) && AllWF(n, b) && a != [] && AtHead(a, x) && NotAtHead(b, x)
    ensures AllWF(n, a + b) && MergePass(n, d, a + b) == MergePass(n, d, a) + MergePass(n, d, b)
    decreases |a|
  {
    hide Union, Adjacent, AtHead, NotAtHead;
    if b == [] {
      assert a + b == a;
      NothingMerged(n, d);
    } else if |a| == 1 {
      HeadsDiffer(n, d, x, a, b);
      assert (a + b)[1..] == b;
    } else {
      HeadRest(n, d, x, a);
      assert (a + b)[0] == a[0] && (a + b)[1] == a[1] && (a + b)[1..] == a[1..] + b && (a + b)[2..] == a[2..] + b;
      if Adjacent(a[0], a[1], d) {
        var u := Union(a[0], a[1], d);
        PassSplit(n, d, x, [u] + a[2..], b);
        assert ([u] + a[2..]) + b == [u] + (a[2..] + b);
      } else {
        PassSplit(n, d, x, a[1..], b);
        ConcatAssoc([a[0]], MergePass(n, d, a[1..]), MergePass(n, d, b));
      }
    }
  }

  /** A pass along a later dimension is a pass over each slab. */
  lemma {:induction false} PassSlabs(n: nat, d: nat, h: nat, m: nat, rs: seq<Block>)
    requires 0 < d < n && AllWF(n - 1, rs) && rs != []
    ensures AllWF(n, RowSlabs(h, m, rs)) && MergePass(n, d, RowSlabs(h, m, rs)) == RowSlabs(h, m, MergePass(n - 1, d - 1, rs))
    decreases m
  {
    hide MergePass, PrependRows;
    SlabsWF(n, h, m, rs);
    if m == 0 {
      NothingMerged(n, d);
    } else {
      PrependWF(n, h, rs);
      PrependLen(h, rs);
      SlabsWF(n, h + 1, m - 1, rs);
      PassSplit(n, d, h, PrependRows(h, rs), RowSlabs(h + 1, m - 1, rs));
      PassPrepend(n, d, h, rs);
      PassSlabs(n, d, h + 1, m - 1, rs);
    }
  }

  lemma NothingMerged(n: nat, d: nat)
    requires d < n
    ensures MergePass(n, d, []) == []
  {
  }

  /** Slices one element wide in dimension 0 only merge into the block. */
  lemma {:induction false} PassFirst(n: nat, w: nat, t: Block, x: nat, h: nat, m: nat)
    requires n > 0 && WF(n - 1, t) && w > 0 && h == x + w
    ensures var a := Block([x] + t.start, [w] + t.count);
            AllWF(n, [a] + RowSlabs(h, m, [t])) &&
            MergePass(n, 0, [a] + RowSlabs(h, m, [t])) == [Block([x] + t.start, [w + m] + t.count)]
    decreases m
  {
    var a := Block([x] + t.start, [w] + t.count);
    SlabsWF(n, h, m, [t]);
    ConsWF(n, w, x, t);
    if m > 0 {
      var c := Block([h] + t.start, [1] + t.count);
      assert PrependRows(h, [t]) == [c];
      assert RowSlabs(h, m, [t]) == [c] + RowSlabs(h + 1, m - 1, [t]);
      assert Adjacent(a, c, 0);
      assert Union(a, c, 0) == Block([x] + t.start, [w + 1] + t.count);
      var s := [a] + RowSlabs(h, m, [t]);
      assert s[2..] == RowSlabs(h + 1, m - 1, [t]);
      PassFirst(n, w + 1, t, x, h + 1, m - 1);
    }
  }

  lemma ConsWF(n: nat, w: nat, x: nat, t: Block)
    requires n > 0 && WF(n - 1, t) && w > 0
    ensures WF(n, Block([x] + t.start, [w] + t.count))
  {
    var a := Block([x] + t.start, [w] + t.count);
    forall k | 0 <= k < n ensures a.count[k] > 0 { if k > 0 { assert a.count[k] == t.count[k - 1]; } }
  }

  /** The pass along dimension k - 1 joins the slices of each slice of the first k - 1 dimensions. */
  lemma {:induction false} PassJoins(n: nat, k: nat, b: Block)
    requires WF(n, b) && 0 < k <= n
    ensures AllWF(n, Slices(k, b)) && MergePass(n, k - 1, Slices(k, b)) == Slices(k - 1, b)
    decreases k
  {
    hide MergePass;
    SlicesWF(n, k, b);
    TailWF(n, b);
    var t := Tail(b);
    if k == 1 {
      var a := Block([b.start[0]] + t.start, [1] + t.count);
      assert PrependRows(b.start[0], [t]) == [a];
      assert Slices(1, b) == [a] + RowSlabs(b.start[0] + 1, b.count[0] - 1, [t]);
      PassFirst(n, 1, t, b.start[0], b.start[0] + 1, b.count[0] - 1);
      assert [b.start[0]] + t.start == b.start && [b.count[0]] + t.count == b.count;
    } else {
      SlicesWF(n - 1, k - 1, t);
      PassSlabs(n, k - 1, b.start[0], b.count[0], Slices(k - 1, t));
      PassJoins(n - 1, k - 1, t);
    }
  }

  /** A pass along a dimension in which the slices are not cut leaves them. */
  lemma {:induction false} PassLeavesSlices(n: nat, d: nat, k: nat, b: Block)
    requires WF(n, b) && k <= d < n
    ensures AllWF(n, Slices(k, b)) && MergePass(n, d, Slices(k, b)) == Slices(k, b)
    decreases k
  {
    hide RowSlabs;
    SlicesWF(n, k, b);
    if k > 0 {
      TailWF(n, b);
      SlicesWF(n - 1, k - 1, Tail(b));
      PassLeavesSlices(n - 1, d - 1, k - 1, Tail(b));
      PassSlabs(n, d, b.start[0], b.count[0], Slices(k - 1, Tail(b)));
    }
  }

  /** The slices of a block merge into the block. */
  lemma {:induction false} SlicesMerge(n: nat, d: nat, k: nat, b: Block)
    requires WF(n, b) && k <= d <= n
    ensures AllWF(n, Slices(k, b)) && MergePasses(n, d, Slices(k, b)) == [b]
    decreases d
  {
    hide MergePass, RowSlabs;
    SlicesWF(n, k, b);
    if d > 0 {
      if k == d {
        PassJoins(n, k, b);
        SlicesMerge(n, d - 1, k - 1, b);
      } else {
        PassLeavesSlices(n, d - 1, k, b);
        SlicesMerge(n, d - 1, k, b);
      }
    }
  }

  // ----- unit slices -----

  lemma {:induction false} SlabStarts(h: nat, m: nat, rs: seq<Block>, cs: seq<Coord>)
    requires |rs| == |cs| && forall j :: 0 <= j < |rs| ==> rs[j].start == cs[j]
    ensures |RowSlabs(h, m, rs)| == |Slabs(h, m, cs)|
    ensures forall j :: 0 <= j < |RowSlabs(h, m, rs)| ==> RowSlabs(h, m, rs)[j].start == Slabs(h, m, cs)[j]
    decreases m
  {
    if m > 0 {
      SlabStarts(h + 1, m - 1, rs, cs);
      var p, q, u, v := PrependRows(h, rs), RowSlabs(h + 1, m - 1, rs), Prepend(h, cs), Slabs(h + 1, m - 1, cs);
      var r: seq<Block>, c: seq<Coord> := p + q, u + v;
      forall j | 0 <= j < |r| ensures r[j].start == c[j]
      {
        if j < |p| { assert p[j].start == [h] + rs[j].start == u[j]; } else { assert r[j] == q[j - |p|] && c[j] == v[j - |p|]; }
      }
    }
  }

  lemma {:induction false} SlabUnits(n: nat, h: nat, m: nat, rs: seq<Block>)
    requires n > 0 && forall j :: 0 <= j < |rs| ==> rs[j].count == Ones(n - 1)
    ensures forall j :: 0 <= j < |RowSlabs(h, m, rs)| ==> RowSlabs(h, m, rs)[j].count == Ones(n)
    decreases m
  {
    if m > 0 {
      SlabUnits(n, h + 1, m - 1, rs);
      var p := PrependRows(h, rs);
      forall j | 0 <= j < |p| ensures p[j].count == Ones(n) { assert p[j].count == [1] + rs[j].count; }
    }
  }

  /** Cut along all dimensions, the slices are the elements. */
  lemma {:induction false} UnitSlices(n: nat, b: Block)
    requires |b.start| == |b.count| == n
    ensures |Slices(n, b)| == |Trav(b)|
    ensures forall j :: 0 <= j < |Trav(b)| ==> Slices(n, b)[j] == Block(Trav(b)[j], Ones(n))
    decreases n
  {
    hide RowSlabs, Slabs;
    TravUnfold(b);
    if n > 0 {
      UnitSlices(n - 1, Tail(b));
      var rs, cs := Slices(n - 1, Tail(b)), Trav(Tail(b));
      SlabStarts(b.start[0], b.count[0], rs, cs);
      SlabUnits(n, b.start[0], b.count[0], rs);
    }
  }

  /** The elements of a block, as unit blocks in row-major order, merge into the block. */
  lemma ElementsMerge(n: nat, b: Block, us: seq<Block>)
    requires WF(n, b) && AllWF(n, us) && |us| == |Trav(b)| && forall j :: 0 <= j < |us| ==> us[j] == Block(Trav(b)[j], Ones(n))
    ensures MergePasses(n, n, us) == [b]
  {
    UnitSlices(n, b);
    SlicesMerge(n, n, n, b);
    assert us == Slices(n, b);
  }

  /** Breaking a block down into its rows and merging them gives the block back. */
  lemma RowsMerge(n: nat, b: Block)
    requires n > 0 && WF(n, b)
    ensures AllWF(n, RowsOf(b)) && MergePasses(n, n, RowsOf(b)) == [b]
  {
    hide RowsOf, Slices, MergePasses;
    RowsAreSlices(n, b);
    SlicesMerge(n, n, n - 1, b);
  }

  lemma {:induction false} RowsAreSlices(n: nat, b: Block)
    requires n > 0 && WF(n, b)
    ensures RowsOf(b) == Slices(n - 1, b)
    decreases n
  {
    if n > 1 {
      TailWF(n, b);
      RowsAreSlices(n - 1, Tail(b));
    }
  }
}
