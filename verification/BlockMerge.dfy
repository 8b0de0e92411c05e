/** `merge_blocks`: coalesce neighbours of a block list in place, one dimension after the other. */
module BlockMerge {
  import opened Grid
  import opened BlockSort

  ghost predicate AllWF(n: nat, bs: seq<Block>) { forall i :: 0 <= i < |bs| ==> WF(n, bs[i]) }

  ghost predicate Covers(n: nat, bs: seq<Block>, c: Coord)
    requires AllWF(n, bs)
  {
    exists i :: 0 <= i < |bs| && InBox(c, bs[i])
  }

  ghost predicate Apart(a: Block, b: Block)
    requires |a.start| == |a.count| && |b.start| == |b.count|
  {
    forall c :: InBox(c, a) ==> !InBox(c, b)
  }

  ghost predicate Disjoint(n: nat, bs: seq<Block>)
    requires AllWF(n, bs)
  {
    forall i, j :: 0 <= i < j < |bs| ==> Apart(bs[i], bs[j])
  }

  ghost predicate UnitBelow(n: nat, d: nat, bs: seq<Block>)
    requires AllWF(n, bs) && d <= n
  {
    forall i, k :: 0 <= i < |bs| && 0 <= k < d ==> bs[i].count[k] == 1
  }

  /** One pass along dimension d: a block is folded into the last one kept whenever it continues it. */
  function MergePass(n: nat, d: nat, bs: seq<Block>): (r: seq<Block>)
    requires d < n && AllWF(n, bs)
    ensures AllWF(n, r) && |r| <= |bs| && (bs != [] ==> r != [])
    decreases |bs|
  {
    if |bs| <= 1 then bs
    else if Adjacent(bs[0], bs[1], d) then
      UnionWF(n, bs[0], bs[1], d);
      MergePass(n, d, [Union(bs[0], bs[1], d)] + bs[2..])
    else [bs[0]] + MergePass(n, d, bs[1..])
  }

  /** The passes along dimensions d-1, d-2, ..., 0. */
  function MergePasses(n: nat, d: nat, bs: seq<Block>): (r: seq<Block>)
    requires d <= n && AllWF(n, bs)
    ensures AllWF(n, r) && |r| <= |bs| && (bs != [] ==> r != [])
    decreases d
  {
    if d == 0 then bs else MergePasses(n, d - 1, MergePass(n, d - 1, bs))
  }

  lemma UnionWF(n: nat, a: Block, b: Block, d: nat)
    requires d < n && WF(n, a) && WF(n, b)
    ensures WF(n, Union(a, b, d))
  {
  }

  lemma UnionBox(n: nat, a: Block, b: Block, d: nat, c: Coord)
    requires d < n && WF(n, a) && WF(n, b) && Adjacent(a, b, d)
    ensures WF(n, Union(a, b, d))
    ensures InBox(c, Union(a, b, d)) <==> InBox(c, a) || InBox(c, b)
  {
    var u := Union(a, b, d);
    if InBox(c, u) {
      if c[d] < b.start[d] {
        forall k | 0 <= k < n ensures a.start[k] <= c[k] < a.start[k] + a.count[k] { assert u.start[k] <= c[k]; }
      } else {
        forall k | 0 <= k < n ensures b.start[k] <= c[k] < b.start[k] + b.count[k] { assert u.start[k] <= c[k]; }
      }
    }
  }

  lemma UnionEnds(n: nat, a: Block, b: Block, d: nat)
    requires d < n && WF(n, a) && WF(n, b) && Adjacent(a, b, d)
    ensures WF(n, Union(a, b, d))
    ensures Union(a, b, d).start == a.start && Last(Union(a, b, d)) == Last(b)
  {
  }

  lemma {:induction false} MergePassCovers(n: nat, d: nat, bs: seq<Block>, c: Coord)
    requires d < n && AllWF(n, bs)
    ensures Covers(n, MergePass(n, d, bs), c) <==> Covers(n, bs, c)
    decreases |bs|
  {
    if |bs| > 1 {
      CoversSplit(n, [bs[0]], bs[1..], c);
      assert [bs[0]] + bs[1..] == bs;
      if Adjacent(bs[0], bs[1], d) {
        UnionBox(n, bs[0], bs[1], d, c);
        var u := Union(bs[0], bs[1], d);
        CoversSplit(n, [u], bs[2..], c);
        CoversSplit(n, [bs[1]], bs[2..], c);
        assert [bs[1]] + bs[2..] == bs[1..];
        MergePassCovers(n, d, [u] + bs[2..], c);
      } else {
        MergePassCovers(n, d, bs[1..], c);
        CoversSplit(n, [bs[0]], MergePass(n, d, bs[1..]), c);
      }
    }
  }

  lemma CoversSplit(n: nat, a: seq<Block>, b: seq<Block>, c: Coord)
    requires AllWF(n, a) && AllWF(n, b)
    ensures AllWF(n, a + b)
    ensures Covers(n, a + b, c) <==> Covers(n, a, c) || Covers(n, b, c)
    ensures |a| == 1 ==> (Covers(n, a, c) <==> InBox(c, a[0]))
  {
    var s := a + b;
    if Covers(n, a, c) {
      var i :| 0 <= i < |a| && InBox(c, a[i]);
      assert InBox(c, s[i]);
    }
    if Covers(n, b, c) {
      var i :| 0 <= i < |b| && InBox(c, b[i]);
      assert InBox(c, s[|a| + i]);
    }
  }

  ghost predicate AllApart(n: nat, a: Block, bs: seq<Block>)
    requires WF(n, a) && AllWF(n, bs)
  {
    forall c :: InBox(c, a) ==> !Covers(n, bs, c)
  }

  lemma DisjointCons(n: nat, a: Block, bs: seq<Block>)
    requires WF(n, a) && AllWF(n, bs)
    ensures AllWF(n, [a] + bs)
    ensures Disjoint(n, [a] + bs) <==> AllApart(n, a, bs) && Disjoint(n, bs)
  {
    var s := [a] + bs;
    if Disjoint(n, s) {
      forall i, j | 0 <= i < j < |bs| ensures Apart(bs[i], bs[j]) { assert Apart(s[i + 1], s[j + 1]); }
      forall c | InBox(c, a) ensures !Covers(n, bs, c)
      {
        forall i | 0 <= i < |bs| ensures !InBox(c, bs[i]) { assert Apart(s[0], s[i + 1]); }
      }
    }
    if AllApart(n, a, bs) && Disjoint(n, bs) {
      forall i, j | 0 <= i < j < |s| ensures Apart(s[i], s[j])
      {
        if i == 0 {
          forall c | InBox(c, a) ensures !InBox(c, s[j]) { assert s[j] == bs[j - 1]; assert !Covers(n, bs, c); }
        } else {
          assert Apart(bs[i - 1], bs[j - 1]);
        }
      }
    }
  }

  lemma {:induction false} MergePassDisjoint(n: nat, d: nat, bs: seq<Block>)
    requires d < n && AllWF(n, bs) && Disjoint(n, bs)
    ensures Disjoint(n, MergePass(n, d, bs))
    decreases |bs|
  {
    if |bs| > 1 {
      assert [bs[0]] + bs[1..] == bs && [bs[1]] + bs[2..] == bs[1..];
      DisjointCons(n, bs[0], bs[1..]);
      DisjointCons(n, bs[1], bs[2..]);
      if Adjacent(bs[0], bs[1], d) {
        var u := Union(bs[0], bs[1], d);
        UnionWF(n, bs[0], bs[1], d);
        forall c | InBox(c, u) ensures !Covers(n, bs[2..], c)
        {
          UnionBox(n, bs[0], bs[1], d, c);
          CoversSplit(n, [bs[1]], bs[2..], c);
        }
        DisjointCons(n, u, bs[2..]);
        MergePassDisjoint(n, d, [u] + bs[2..]);
      } else {
        MergePassDisjoint(n, d, bs[1..]);
        forall c | InBox(c, bs[0]) ensures !Covers(n, MergePass(n, d, bs[1..]), c)
        {
          MergePassCovers(n, d, bs[1..], c);
        }
        DisjointCons(n, bs[0], MergePass(n, d, bs[1..]));
      }
    }
  }

  /** The key a list is ordered by: its starts or its ends. */
  function Key(ends: bool, b: Block): Coord
    requires |b.start| == |b.count| && Positive(b.count)
  {
    if ends then Last(b) else b.start
  }

  ghost predicate Above(n: nat, ends: bool, x: Coord, bs: seq<Block>)
    requires AllWF(n, bs) && |x| == n
  {
    forall i :: 0 <= i < |bs| ==> Less(x, Key(ends, bs[i]))
  }

  ghost predicate KeysIncrease(n: nat, ends: bool, bs: seq<Block>)
    requires AllWF(n, bs)
  {
    forall i, j :: 0 <= i < j < |bs| ==> Less(Key(ends, bs[i]), Key(ends, bs[j]))
  }

  lemma AboveCons(n: nat, ends: bool, x: Coord, a: Block, bs: seq<Block>)
    requires WF(n, a) && AllWF(n, bs) && |x| == n
    ensures AllWF(n, [a] + bs)
    ensures Above(n, ends, x, [a] + bs) <==> Less(x, Key(ends, a)) && Above(n, ends, x, bs)
  {
    var s := [a] + bs;
    if Above(n, ends, x, s) {
      assert Less(x, Key(ends, s[0]));
      forall i | 0 <= i < |bs| ensures Less(x, Key(ends, bs[i])) { assert s[i + 1] == bs[i]; }
    }
  }

  lemma KeysIncreaseCons(n: nat, ends: bool, a: Block, bs: seq<Block>)
    requires WF(n, a) && AllWF(n, bs)
    ensures AllWF(n, [a] + bs)
    ensures KeysIncrease(n, ends, [a] + bs) <==> Above(n, ends, Key(ends, a), bs) && KeysIncrease(n, ends, bs)
  {
    var s := [a] + bs;
    if KeysIncrease(n, ends, s) {
      forall i | 0 <= i < |bs| ensures Less(Key(ends, a), Key(ends, bs[i])) { assert s[0] == a && s[i + 1] == bs[i]; }
      forall i, j | 0 <= i < j < |bs| ensures Less(Key(ends, bs[i]), Key(ends, bs[j])) { assert s[i + 1] == bs[i] && s[j + 1] == bs[j]; }
    }
  }

  lemma UnionKey(n: nat, ends: bool, a: Block, b: Block, d: nat)
    requires d < n && WF(n, a) && WF(n, b) && Adjacent(a, b, d)
    ensures WF(n, Union(a, b, d))
    ensures Key(ends, Union(a, b, d)) == if ends then Key(ends, b) else Key(ends, a)
  {
    UnionEnds(n, a, b, d);
  }

  lemma {:induction false} MergePassAbove(n: nat, d: nat, ends: bool, x: Coord, bs: seq<Block>)
    requires d < n && AllWF(n, bs) && |x| == n && Above(n, ends, x, bs)
    ensures Above(n, ends, x, MergePass(n, d, bs))
    decreases |bs|
  {
    if |bs| > 1 {
      var a, b, t := bs[0], bs[1], bs[2..];
      assert bs == [a] + bs[1..] && bs[1..] == [b] + t;
      AboveCons(n, ends, x, a, bs[1..]);
      AboveCons(n, ends, x, b, t);
      if Adjacent(a, b, d) {
        UnionKey(n, ends, a, b, d);
        AboveCons(n, ends, x, Union(a, b, d), t);
        MergePassAbove(n, d, ends, x, [Union(a, b, d)] + t);
      } else {
        MergePassAbove(n, d, ends, x, bs[1..]);
        AboveCons(n, ends, x, a, MergePass(n, d, bs[1..]));
      }
    }
  }

  /** A pass keeps increasing starts increasing, and increasing ends increasing. */
  lemma {:induction false} MergePassOrder(n: nat, d: nat, ends: bool, bs: seq<Block>)
    requires d < n && AllWF(n, bs) && KeysIncrease(n, ends, bs)
    ensures KeysIncrease(n, ends, MergePass(n, d, bs))
    decreases |bs|
  {
    if |bs| > 1 {
      var a, b, t := bs[0], bs[1], bs[2..];
      assert bs == [a] + bs[1..] && bs[1..] == [b] + t;
      KeysIncreaseCons(n, ends, a, bs[1..]);
      KeysIncreaseCons(n, ends, b, t);
      AboveCons(n, ends, Key(ends, a), b, t);
      if Adjacent(a, b, d) {
        UnionKey(n, ends, a, b, d);
        KeysIncreaseCons(n, ends, Union(a, b, d), t);
        MergePassOrder(n, d, ends, [Union(a, b, d)] + t);
      } else {
        MergePassOrder(n, d, ends, bs[1..]);
        MergePassAbove(n, d, ends, Key(ends, a), bs[1..]);
        KeysIncreaseCons(n, ends, a, MergePass(n, d, bs[1..]));
      }
    }
  }

  /** When every block is unit-sized before dimension d, a pass along d keeps the traversal. */
  lemma {:induction false} MergePassTrav(n: nat, d: nat, bs: seq<Block>)
    requires d < n && AllWF(n, bs) && UnitBelow(n, d, bs)
    ensures UnitBelow(n, d, MergePass(n, d, bs))
    ensures TravAll(MergePass(n, d, bs)) == TravAll(bs)
    decreases |bs|
  {
    if |bs| > 1 {
      if Adjacent(bs[0], bs[1], d) {
        var u, t := Union(bs[0], bs[1], d), bs[2..];
        UnionWF(n, bs[0], bs[1], d);
        TravMerge(bs[0], bs[1], d);
        TravAllPair(n, bs[0], bs[1], t, u);
        assert bs == [bs[0], bs[1]] + t;
        MergePassTrav(n, d, [u] + t);
      } else {
        MergePassTrav(n, d, bs[1..]);
        var r := MergePass(n, d, bs[1..]);
        assert ([bs[0]] + r)[1..] == r;
      }
    }
  }

  lemma TravAllPair(n: nat, a: Block, b: Block, t: seq<Block>, u: Block)
    requires WF(n, a) && WF(n, b) && WF(n, u) && AllWF(n, t) && Trav(u) == Trav(a) + Trav(b)
    ensures AllWF(n, [a, b] + t) && AllWF(n, [u] + t)
    ensures TravAll([a, b] + t) == TravAll([u] + t)
  {
    hide Trav, TravAll;
    TravAllCons(a, [b] + t);
    TravAllCons(b, t);
    TravAllCons(u, t);
    assert [a, b] + t == [a] + ([b] + t);
    assert Trav(a) + (Trav(b) + TravAll(t)) == (Trav(a) + Trav(b)) + TravAll(t);
  }

  // ----- all passes -----

  lemma {:induction false} MergeCovers(n: nat, d: nat, bs: seq<Block>, c: Coord)
    requires d <= n && AllWF(n, bs)
    ensures Covers(n, MergePasses(n, d, bs), c) <==> Covers(n, bs, c)
    decreases d
  {
    if d > 0 {
      MergePassCovers(n, d - 1, bs, c);
      MergeCovers(n, d - 1, MergePass(n, d - 1, bs), c);
    }
  }

  lemma {:induction false} MergeDisjoint(n: nat, d: nat, bs: seq<Block>)
    requires d <= n && AllWF(n, bs) && Disjoint(n, bs)
    ensures Disjoint(n, MergePasses(n, d, bs))
    decreases d
  {
    if d > 0 {
      MergePassDisjoint(n, d - 1, bs);
      MergeDisjoint(n, d - 1, MergePass(n, d - 1, bs));
    }
  }

  lemma {:induction false} MergeOrder(n: nat, d: nat, ends: bool, bs: seq<Block>)
    requires d <= n && AllWF(n, bs) && KeysIncrease(n, ends, bs)
    ensures KeysIncrease(n, ends, MergePasses(n, d, bs))
    decreases d
  {
    if d > 0 {
      MergePassOrder(n, d - 1, ends, bs);
      MergeOrder(n, d - 1, ends, MergePass(n, d - 1, bs));
    }
  }

  lemma {:induction false} MergeTrav(n: nat, d: nat, bs: seq<Block>)
    requires d <= n && AllWF(n, bs) && (d > 0 ==> UnitBelow(n, d - 1, bs))
    ensures TravAll(MergePasses(n, d, bs)) == TravAll(bs)
    decreases d
  {
    if d > 0 {
      MergePassTrav(n, d - 1, bs);
      MergeTrav(n, d - 1, MergePass(n, d - 1, bs));
    }
  }
}
