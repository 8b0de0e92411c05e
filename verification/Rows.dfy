/** Rows of a block - its contiguous runs along the last dimension - and the odometer that walks them. */
module Rows {
  import opened Grid

  function PrependRows(h: nat, rs: seq<Block>): (r: seq<Block>)
    ensures |r| == |rs|
  {
    seq(|rs|, i requires 0 <= i < |rs| => Block([h] + rs[i].start, [1] + rs[i].count))
  }

  function RowSlabs(h: nat, n: nat, rs: seq<Block>): seq<Block>
    decreases n
  {
    if n == 0 then [] else PrependRows(h, rs) + RowSlabs(h + 1, n - 1, rs)
  }

  /** The rows of a block in row-major order. */
  function RowsOf(b: Block): seq<Block>
    requires |b.start| == |b.count| > 0
    decreases |b.start|
  {
    if |b.start| == 1 then [b] else RowSlabs(b.start[0], b.count[0], RowsOf(Tail(b)))
  }

  function Ones(n: nat): (r: Coord)
    ensures |r| == n
  {
    seq(n, i => 1)
  }

  function Front(c: Coord): (r: Coord)
    requires |c| > 0
    ensures |r| == |c| - 1
  {
    c[..|c| - 1]
  }

  /** The row of b whose leading coordinates lie `ctr` above the block's start. */
  function RowAt(b: Block, ctr: Coord): Block
    requires |b.start| == |b.count| > 0 && |ctr| == |b.start| - 1
  {
    Block(Add(Front(b.start), ctr) + [b.start[|ctr|]], Ones(|ctr|) + [b.count[|ctr|]])
  }

  ghost predicate IsRow(n: nat, b: Block)
  {
    WF(n, b) && n > 0 && forall k :: 0 <= k < n - 1 ==> b.count[k] == 1
  }

  lemma {:induction false} RowSlabsAt(h: nat, n: nat, rs: seq<Block>, i: nat, j: nat)
    requires i < n && j < |rs|
    ensures i * |rs| + j < n * |rs| == |RowSlabs(h, n, rs)|
    ensures RowSlabs(h, n, rs)[i * |rs| + j] == Block([h + i] + rs[j].start, [1] + rs[j].count)
    decreases n
  {
    MulGap(i, n, |rs|, j, 0);
    RowSlabsLen(h, n, rs);
    if i > 0 {
      RowSlabsAt(h + 1, n - 1, rs, i - 1, j);
      assert i * |rs| == (i - 1) * |rs| + |rs|;
      assert i * |rs| + j - |rs| == (i - 1) * |rs| + j;
    }
  }

  lemma {:induction false} RowSlabsLen(h: nat, n: nat, rs: seq<Block>)
    ensures |RowSlabs(h, n, rs)| == n * |rs|
    decreases n
  {
    if n > 0 {
      RowSlabsLen(h + 1, n - 1, rs);
      assert n * |rs| == |rs| + (n - 1) * |rs|;
    }
  }

  /** There are as many rows as the product of the leading counts, the size computed beforehand. */
  lemma {:induction false} RowCount(b: Block)
    requires |b.start| == |b.count| > 0
    ensures |RowsOf(b)| == Prod(Front(b.count))
    decreases |b.start|
  {
    if |b.start| > 1 {
      RowCount(Tail(b));
      RowSlabsLen(b.start[0], b.count[0], RowsOf(Tail(b)));
      assert Front(b.count)[1..] == Front(Tail(b).count);
    }
  }

  /** The row at counter `ctr` stands at the counter's row-major position. */
  lemma {:induction false} RowPosition(b: Block, ctr: Coord)
    requires |b.start| == |b.count| > 0 && InBounds(Front(b.count), ctr)
    ensures Linear(Front(b.count), ctr) < |RowsOf(b)|
    ensures RowsOf(b)[Linear(Front(b.count), ctr)] == RowAt(b, ctr)
    decreases |b.start|
  {
    hide RowAt, RowSlabs, Prod;
    RowCount(b);
    LinearBound(Front(b.count), ctr);
    if |b.start| == 1 {
      assert Linear(Front(b.count), ctr) == 0;
      OnlyRow(b, ctr);
    } else {
      var t := Tail(b);
      var ft := Front(t.count);
      assert Front(b.count)[1..] == ft;
      assert InBounds(ft, ctr[1..]) by {
        forall k | 0 <= k < |ft| ensures ctr[1..][k] < ft[k] { assert ctr[k + 1] < Front(b.count)[k + 1]; }
      }
      RowPosition(t, ctr[1..]);
      RowCount(t);
      RowSlabsAt(b.start[0], b.count[0], RowsOf(t), ctr[0], Linear(ft, ctr[1..]));
      RowAtCons(b, ctr);
    }
  }

  lemma OnlyRow(b: Block, ctr: Coord)
    requires |b.start| == |b.count| == 1 && ctr == []
    ensures RowAt(b, ctr) == b
  {
  }

  lemma RowAtCons(b: Block, ctr: Coord)
    requires |b.start| == |b.count| > 1 && |ctr| == |b.start| - 1
    ensures RowAt(b, ctr) == Block([b.start[0] + ctr[0]] + RowAt(Tail(b), ctr[1..]).start, [1] + RowAt(Tail(b), ctr[1..]).count)
  {
    var r := RowAt(Tail(b), ctr[1..]);
    assert RowAt(b, ctr).start == [b.start[0] + ctr[0]] + r.start;
    assert RowAt(b, ctr).count == [1] + r.count;
  }

  lemma {:induction false} RowsWF(n: nat, b: Block)
    requires WF(n, b) && n > 0
    ensures forall i :: 0 <= i < |RowsOf(b)| ==> IsRow(n, RowsOf(b)[i])
    decreases n
  {
    if n > 1 {
      assert WF(n - 1, Tail(b));
      RowsWF(n - 1, Tail(b));
      RowSlabsWF(n, b.start[0], b.count[0], RowsOf(Tail(b)));
    }
  }

  lemma {:induction false} RowSlabsWF(n: nat, h: nat, m: nat, rs: seq<Block>)
    requires n > 1 && forall i :: 0 <= i < |rs| ==> IsRow(n - 1, rs[i])
    ensures forall i :: 0 <= i < |RowSlabs(h, m, rs)| ==> IsRow(n, RowSlabs(h, m, rs)[i])
    decreases m
  {
    if m > 0 {
      RowSlabsWF(n, h + 1, m - 1, rs);
      forall i | 0 <= i < |rs| ensures IsRow(n, PrependRows(h, rs)[i])
      {
        assert IsRow(n - 1, rs[i]);
      }
      var s := RowSlabs(h, m, rs);
      forall i | 0 <= i < |s| ensures IsRow(n, s[i])
      {
        if i >= |rs| { assert s[i] == RowSlabs(h + 1, m - 1, rs)[i - |rs|]; } else { assert s[i] == PrependRows(h, rs)[i]; }
      }
    }
  }

  /** Walking the rows one after the other visits the block in row-major order. */
  lemma {:induction false} RowsTrav(b: Block)
    requires |b.start| == |b.count| > 0
    ensures Shaped(RowsOf(b)) && TravAll(RowsOf(b)) == Trav(b)
    decreases |b.start|
  {
    if |b.start| == 1 {
      TravAllCons(b, []);
      assert [b] + [] == [b];
    } else {
      RowsTrav(Tail(b));
      RowSlabsTrav(b.start[0], b.count[0], RowsOf(Tail(b)));
    }
  }

  lemma {:induction false} RowSlabsTrav(h: nat, m: nat, rs: seq<Block>)
    requires Shaped(rs)
    ensures Shaped(RowSlabs(h, m, rs))
    ensures TravAll(RowSlabs(h, m, rs)) == Slabs(h, m, TravAll(rs))
    decreases m
  {
    if m > 0 {
      RowSlabsTrav(h + 1, m - 1, rs);
      PrependRowsTrav(h, rs);
      TravAllConcat(PrependRows(h, rs), RowSlabs(h + 1, m - 1, rs));
    }
  }

  lemma {:induction false} PrependRowsTrav(h: nat, rs: seq<Block>)
    requires Shaped(rs)
    ensures Shaped(PrependRows(h, rs))
    ensures TravAll(PrependRows(h, rs)) == Prepend(h, TravAll(rs))
    decreases |rs|
  {
    if rs != [] {
      var x := Block([h] + rs[0].start, [1] + rs[0].count);
      PrependRowsTrav(h, rs[1..]);
      assert PrependRows(h, rs) == [x] + PrependRows(h, rs[1..]);
      TravAllCons(x, PrependRows(h, rs[1..]));
      assert Tail(x) == rs[0];
      UnitSlab(x);
      PrependConcat(h, Trav(rs[0]), TravAll(rs[1..]));
    }
  }

  // ----- the odometer -----

  lemma {:induction false} LinearUpdate(dims: Coord, c: Coord, k: nat, v: nat)
    requires |dims| == |c| && k < |c|
    ensures Linear(dims, c[k := v]) == Linear(dims, c) + (v - c[k]) * Prod(dims[k + 1..])
    decreases k
  {
    var c' := c[k := v];
    if k == 0 {
      assert c'[1..] == c[1..];
      assert v * Prod(dims[1..]) == c[0] * Prod(dims[1..]) + (v - c[0]) * Prod(dims[1..]);
    } else {
      assert c'[1..] == c[1..][k - 1 := v];
      assert dims[1..][k..] == dims[k + 1..];
      LinearUpdate(dims[1..], c[1..], k - 1, v);
    }
  }

  /** Advancing the last digit advances the position by one. */
  lemma Bump(dims: Coord, c: Coord)
    requires |dims| == |c| > 0
    ensures Linear(dims, c[|c| - 1 := c[|c| - 1] + 1]) == Linear(dims, c) + 1
  {
    LinearUpdate(dims, c, |c| - 1, c[|c| - 1] + 1);
    assert dims[|c|..] == [];
  }

  /** A carry out of a digit that reached its radix leaves the position unchanged. */
  lemma Carry(dims: Coord, c: Coord, k: nat)
    requires |dims| == |c| && 1 <= k < |c| && c[k] == dims[k]
    ensures Linear(dims, c[k := 0][k - 1 := c[k - 1] + 1]) == Linear(dims, c)
  {
    var w := Prod(dims[k + 1..]);
    var c1 := c[k := 0];
    LinearUpdate(dims, c, k, 0);
    LinearUpdate(dims, c1, k - 1, c[k - 1] + 1);
    assert dims[k - 1 + 1..] == dims[k..] && dims[k..][1..] == dims[k + 1..];
    CarryWeights(Linear(dims, c), Linear(dims, c1), Linear(dims, c1[k - 1 := c[k - 1] + 1]), c[k - 1], dims[k], w, Prod(dims[k..]));
  }

  lemma CarryWeights(l: nat, l1: nat, l2: nat, prev: nat, radix: nat, w: nat, w1: nat)
    requires l1 == l + (0 - radix) * w && l2 == l1 + (prev + 1 - prev) * w1 && w1 == radix * w
    ensures l2 == l
  {
    assert (0 - radix) * w + radix * w == 0;
  }

  ghost predicate AtLast(dims: Coord, c: Coord)
    requires |dims| == |c|
  {
    forall k :: 0 <= k < |c| ==> c[k] + 1 >= dims[k]
  }

  lemma AtLastCons(dims: Coord, c: Coord)
    requires |dims| == |c| > 0
    ensures AtLast(dims, c) <==> c[0] + 1 >= dims[0] && AtLast(dims[1..], c[1..])
  {
    if AtLast(dims[1..], c[1..]) && c[0] + 1 >= dims[0] {
      forall k | 0 <= k < |c| ensures c[k] + 1 >= dims[k]
      {
        if k > 0 { assert c[1..][k - 1] + 1 >= dims[1..][k - 1]; }
      }
    }
  }

  lemma EmptyIsLast()
    ensures AtLast([], [])
  {
  }

  /** The last row is at the last position, every other row before it. */
  lemma {:induction false} LastPosition(dims: Coord, c: Coord)
    requires InBounds(dims, c)
    ensures Linear(dims, c) + 1 == Prod(dims) <==> AtLast(dims, c)
    decreases |c|
  {
    hide AtLast;
    if c == [] {
      EmptyIsLast();
    } else {
      var p, l := Prod(dims[1..]), Linear(dims[1..], c[1..]);
      LinearBound(dims[1..], c[1..]);
      LastPosition(dims[1..], c[1..]);
      AtLastCons(dims, c);
      if c[0] + 1 < dims[0] {
        MulGap(c[0], dims[0] - 1, p, l, 0);
        assert (dims[0] - 1) * p + p == dims[0] * p;
      } else {
        assert c[0] * p + p == dims[0] * p;
      }
    }
  }
}
