/** The canonical form of a hyperslab selection: merge, sort, merge, group, break interleaving groups into
    rows, sort and merge again.  This module gives the pipeline on block lists and proves what it yields, as if
    every slot had a row of its own; SlotFill says when the program, which shares rows, yields the same. */
module CanonicalForm {
  import opened Grid
  import opened Rows
  import opened BlockSort
  import opened BlockMerge

  function Starts(n: nat, bs: seq<Block>): (keys: seq<Coord>)
    requires AllWF(n, bs)
    ensures |keys| == |bs| && SameRank(keys)
  {
    seq(|bs|, i requires 0 <= i < |bs| => bs[i].start)
  }

  /** The list in order of starts. */
  function Arrange(n: nat, bs: seq<Block>): (r: seq<Block>)
    requires AllWF(n, bs)
    ensures AllWF(n, r) && |r| == |bs|
  {
    var p := StdOrder(Starts(n, bs), |bs|);
    seq(|bs|, t requires 0 <= t < |bs| => bs[p[t]])
  }

  ghost predicate DistinctStarts(n: nat, bs: seq<Block>)
    requires AllWF(n, bs)
  {
    forall i, j :: 0 <= i < j < |bs| ==> bs[i].start != bs[j].start
  }

  lemma DisjointDistinct(n: nat, bs: seq<Block>)
    requires AllWF(n, bs) && Disjoint(n, bs)
    ensures DistinctStarts(n, bs)
  {
    forall i, j | 0 <= i < j < |bs| ensures bs[i].start != bs[j].start
    {
      assert Apart(bs[i], bs[j]);
      assert InBox(bs[i].start, bs[i]);
      assert InBox(bs[j].start, bs[j]);
    }
  }

  /** A list permuted into non-decreasing starts. */
  ghost predicate SortedCopy(n: nat, bs: seq<Block>, r: seq<Block>, p: seq<int>)
    requires AllWF(n, bs) && AllWF(n, r)
  {
    |r| == |bs| && IsPerm(p, |bs|) &&
    (forall t {:trigger r[t]} :: 0 <= t < |bs| ==> r[t] == bs[p[t]]) &&
    (forall t, u :: 0 <= t < u < |r| ==> LessEq(r[t].start, r[u].start))
  }

  lemma ArrangeSorts(n: nat, bs: seq<Block>)
    requires AllWF(n, bs)
    ensures SortedCopy(n, bs, Arrange(n, bs), StdOrder(Starts(n, bs), |bs|))
  {
    var p := StdOrder(Starts(n, bs), |bs|);
    var r := Arrange(n, bs);
    forall t, u | 0 <= t < u < |r| ensures LessEq(r[t].start, r[u].start)
    {
      assert r[t].start == Starts(n, bs)[p[t]] && r[u].start == Starts(n, bs)[p[u]];
    }
  }

  lemma SortedCopyFacts(n: nat, bs: seq<Block>, r: seq<Block>, p: seq<int>)
    requires AllWF(n, bs) && AllWF(n, r) && SortedCopy(n, bs, r, p)
    ensures forall b :: b in r <==> b in bs
    ensures DistinctStarts(n, bs) ==> KeysIncrease(n, false, r)
    ensures Disjoint(n, bs) ==> Disjoint(n, r)
  {
    forall b ensures b in r <==> b in bs
    {
      if b in r {
        var t :| 0 <= t < |r| && r[t] == b;
        assert bs[p[t]] == b;
      }
      if b in bs {
        var v :| 0 <= v < |bs| && bs[v] == b;
        assert v in p;
        var t :| 0 <= t < |p| && p[t] == v;
        assert r[t] == b;
      }
    }
    if DistinctStarts(n, bs) {
      forall t, u | 0 <= t < u < |r| ensures Less(Key(false, r[t]), Key(false, r[u]))
      {
        assert LessEq(r[t].start, r[u].start);
        assert r[t] == bs[p[t]] && r[u] == bs[p[u]] && p[t] != p[u];
      }
    }
    if Disjoint(n, bs) {
      forall t, u | 0 <= t < u < |r| ensures Apart(r[t], r[u])
      {
        assert r[t] == bs[p[t]] && r[u] == bs[p[u]] && p[t] != p[u];
        if p[t] < p[u] { assert Apart(bs[p[t]], bs[p[u]]); } else { assert Apart(bs[p[u]], bs[p[t]]); }
      }
    }
  }

  /** Strictly increasing starts leave no choice to the sort: two such lists of the same blocks are equal. */
  lemma {:induction false} SortUnique(n: nat, a: seq<Block>, b: seq<Block>)
    requires AllWF(n, a) && AllWF(n, b) && KeysIncrease(n, false, a) && KeysIncrease(n, false, b)
    requires forall x :: x in a <==> x in b
    ensures a == b
    decreases |a|
  {
    assert |a| > 0 ==> a[0] in b;
    assert |b| > 0 ==> b[0] in a;
    if |a| > 0 {
      FirstLeast(n, a, b[0]);
      FirstLeast(n, b, a[0]);
      LessEqAntisym(a[0].start, b[0].start);
      SameStart(n, a, a[0], b[0]);
      forall x ensures x in a[1..] <==> x in b[1..]
      {
        TailMember(n, a, x);
        TailMember(n, b, x);
      }
      SortUnique(n, a[1..], b[1..]);
      assert a == [a[0]] + a[1..] && b == [b[0]] + b[1..];
    }
  }

  lemma FirstLeast(n: nat, a: seq<Block>, x: Block)
    requires AllWF(n, a) && KeysIncrease(n, false, a) && x in a
    ensures |x.start| == n && LessEq(a[0].start, x.start)
  {
    var i :| 0 <= i < |a| && a[i] == x;
    if i > 0 { assert Less(Key(false, a[0]), Key(false, a[i])); }
  }

  lemma SameStart(n: nat, a: seq<Block>, x: Block, y: Block)
    requires AllWF(n, a) && KeysIncrease(n, false, a) && x in a && y in a && x.start == y.start
    ensures x == y
  {
    var i :| 0 <= i < |a| && a[i] == x;
    forall u | 0 <= u < |a| && u != i ensures a[u].start != x.start
    {
      if u < i {
        assert Less(Key(false, a[u]), Key(false, a[i]));
        LessAsym(a[u].start, a[i].start);
      } else {
        assert Less(Key(false, a[i]), Key(false, a[u]));
        LessAsym(a[i].start, a[u].start);
      }
    }
  }

  lemma TailMember(n: nat, a: seq<Block>, x: Block)
    requires AllWF(n, a) && KeysIncrease(n, false, a) && a != []
    ensures x in a[1..] <==> x in a && x != a[0]
  {
    LessIrrefl(a[0].start);
    if x in a[1..] {
      var i :| 0 <= i < |a[1..]| && a[1..][i] == x;
      assert a[i + 1] == x && Less(Key(false, a[0]), Key(false, a[i + 1]));
    }
    if x in a && x != a[0] {
      var i :| 0 <= i < |a| && a[i] == x;
      assert a[1..][i - 1] == x;
    }
  }

  // ----- the pipeline -----

  /** The list that is grouped: merged, sorted, merged. */
  function Prepared(n: nat, spans: seq<Block>): (g: seq<Block>)
    requires AllWF(n, spans)
    ensures AllWF(n, g)
  {
    MergePasses(n, n, Arrange(n, MergePasses(n, n, spans)))
  }

  /** Length of the first group: a block joins the group unless it starts after its predecessor's end. */
  function RunLen(n: nat, g: seq<Block>): (r: nat)
    requires AllWF(n, g) && g != []
    ensures 1 <= r <= |g|
    decreases |g|
  {
    if |g| == 1 || Less(Last(g[0]), g[1].start) then 1 else 1 + RunLen(n, g[1..])
  }

  function AllRows(n: nat, g: seq<Block>): (r: seq<Block>)
    requires n > 0 && AllWF(n, g)
    ensures AllWF(n, r) && forall i :: 0 <= i < |r| ==> IsRow(n, r[i])
    decreases |g|
  {
    if g == [] then [] else RowsWF(n, g[0]); RowsOf(g[0]) + AllRows(n, g[1..])
  }

  /** What one group becomes. */
  function EmitRun(n: nat, g: seq<Block>): (r: seq<Block>)
    requires n > 0 && AllWF(n, g) && g != []
    ensures AllWF(n, r)
  {
    if |g| == 1 then g else MergePasses(n, n, Arrange(n, AllRows(n, g)))
  }

  function Emit(n: nat, g: seq<Block>): (r: seq<Block>)
    requires n > 0 && AllWF(n, g)
    ensures AllWF(n, r)
    decreases |g|, 1
  {
    if g == [] then [] else EmitGroups(n, g)
  }

  /** The first group, then the others. */
  function EmitGroups(n: nat, g: seq<Block>): (r: seq<Block>)
    requires n > 0 && AllWF(n, g) && g != []
    ensures AllWF(n, r)
    decreases |g|, 0
  {
    var k := RunLen(n, g);
    EmitRun(n, g[..k]) + Emit(n, g[k..])
  }

  function Canonical(n: nat, spans: seq<Block>): (r: seq<Block>)
    requires n > 0 && AllWF(n, spans)
    ensures AllWF(n, r)
  {
    Emit(n, Prepared(n, spans))
  }

  /** Wherever the list is cut, every block before the cut ends before the block after it starts. */
  ghost predicate Separated(n: nat, g: seq<Block>)
    requires AllWF(n, g)
  {
    forall i, k :: 0 <= k <= i < |g| - 1 && Less(Last(g[i]), g[i + 1].start) ==> Less(Last(g[k]), g[i + 1].start)
  }

  // ----- rows -----

  lemma {:induction false} AllRowsTrav(n: nat, g: seq<Block>)
    requires n > 0 && AllWF(n, g)
    ensures TravAll(AllRows(n, g)) == TravAll(g)
    decreases |g|
  {
    if g != [] {
      RowsTrav(g[0]);
      AllRowsTrav(n, g[1..]);
      TravAllConcat(RowsOf(g[0]), AllRows(n, g[1..]));
    }
  }

  lemma CoversTrav(n: nat, bs: seq<Block>, c: Coord)
    requires AllWF(n, bs)
    ensures Covers(n, bs, c) <==> c in TravAll(bs)
  {
    TravAllMember(bs, c);
  }

  ghost predicate NoRepeat(s: seq<Coord>)
  {
    forall i, j :: 0 <= i < j < |s| ==> s[i] != s[j]
  }

  lemma IncreasingNoRepeat(s: seq<Coord>)
    requires Increasing(s)
    ensures NoRepeat(s)
  {
    forall i, j | 0 <= i < j < |s| ensures s[i] != s[j] { LessAsym(s[i], s[j]); }
  }

  lemma NoRepeatConcat(a: seq<Coord>, b: seq<Coord>)
    ensures NoRepeat(a + b) <==> NoRepeat(a) && NoRepeat(b) && forall c :: c in a ==> c !in b
  {
    var s := a + b;
    if NoRepeat(s) {
      forall i, j | 0 <= i < j < |b| ensures b[i] != b[j] { assert s[|a| + i] != s[|a| + j]; }
      forall i, j | 0 <= i < j < |a| ensures a[i] != a[j] { assert s[i] != s[j]; }
      forall c | c in a ensures c !in b
      {
        var i :| 0 <= i < |a| && a[i] == c;
        forall j | 0 <= j < |b| ensures b[j] != c { assert s[i] != s[|a| + j]; }
      }
    }
    if NoRepeat(a) && NoRepeat(b) && forall c :: c in a ==> c !in b {
      forall i, j | 0 <= i < j < |s| ensures s[i] != s[j]
      {
        if i < |a| <= j { assert s[i] in a && s[j] in b; }
      }
    }
  }

  /** Disjoint blocks are exactly those whose traversals together repeat no coordinate. */
  lemma {:induction false} DisjointNoRepeat(n: nat, bs: seq<Block>)
    requires AllWF(n, bs)
    ensures Disjoint(n, bs) <==> NoRepeat(TravAll(bs))
    decreases |bs|
  {
    if bs != [] {
      var a, t := bs[0], bs[1..];
      assert bs == [a] + t;
      DisjointCons(n, a, t);
      DisjointNoRepeat(n, t);
      TravIncreasing(a);
      IncreasingNoRepeat(Trav(a));
      NoRepeatConcat(Trav(a), TravAll(t));
      forall c ensures c in Trav(a) <==> InBox(c, a) { TravMember(a, c); }
      forall c ensures c in TravAll(t) <==> Covers(n, t, c) { CoversTrav(n, t, c); }
    }
  }

  ghost predicate Sep(n: nat, bs: seq<Block>)
    requires AllWF(n, bs)
  {
    forall i, j :: 0 <= i < j < |bs| ==> Less(Last(bs[i]), bs[j].start)
  }

  /** Blocks each ending before the next begins are traversed in strictly increasing order. */
  lemma {:induction false} SepIncreasing(n: nat, bs: seq<Block>)
    requires AllWF(n, bs) && Sep(n, bs)
    ensures Increasing(TravAll(bs))
    decreases |bs|
  {
    hide Less, Trav, Increasing;
    if bs == [] {
      EmptyIncreasing();
    } else {
      var a, t := bs[0], bs[1..];
      TravIncreasing(a);
      assert Sep(n, t) by { forall i, j | 0 <= i < j < |t| ensures Less(Last(t[i]), t[j].start) { assert t[i] == bs[i + 1] && t[j] == bs[j + 1]; } }
      SepIncreasing(n, t);
      forall x, y | x in Trav(a) && y in TravAll(t)
        ensures |x| == |y| && Less(x, y)
      {
        TravMember(a, x);
        CoversTrav(n, t, y);
        var i :| 0 <= i < |t| && InBox(y, t[i]);
        BoxBelowLast(x, a);
        BoxBelowLast(y, t[i]);
        assert Less(Last(a), bs[i + 1].start);
        LessEqLess(x, Last(a), t[i].start);
        LessEqLess(x, t[i].start, y);
      }
      IncreasingConcat(Trav(a), TravAll(t));
    }
  }

  lemma EmptyIncreasing()
    ensures Increasing([])
  {
  }

  /** Two disjoint rows ordered by start are ordered as a whole. */
  lemma {:induction false} RowsApart(n: nat, a: Block, b: Block)
    requires IsRow(n, a) && IsRow(n, b) && Apart(a, b) && Less(a.start, b.start)
    ensures Less(Last(a), b.start)
    decreases n
  {
    if n == 1 {
      if b.start[0] < a.start[0] + a.count[0] {
        assert InBox(b.start, a) && InBox(b.start, b);
      }
      assert Last(a)[0] < b.start[0];
    } else {
      assert Last(a)[0] == a.start[0];
      if a.start[0] == b.start[0] {
        forall x | InBox(x, Tail(a)) ensures !InBox(x, Tail(b))
        {
          var c := [a.start[0]] + x;
          assert c[1..] == x;
          InBoxTail(c, a);
          InBoxTail(c, b);
        }
        assert IsRow(n - 1, Tail(a)) && IsRow(n - 1, Tail(b));
        RowsApart(n - 1, Tail(a), Tail(b));
        LastTail(a);
        assert Last(a)[1..] == Last(Tail(a));
      }
    }
  }

  lemma RowsSep(n: nat, rs: seq<Block>)
    requires AllWF(n, rs) && (forall i :: 0 <= i < |rs| ==> IsRow(n, rs[i])) && Disjoint(n, rs) && KeysIncrease(n, false, rs)
    ensures Sep(n, rs)
  {
    forall i, j | 0 <= i < j < |rs| ensures Less(Last(rs[i]), rs[j].start)
    {
      assert Apart(rs[i], rs[j]) && Less(Key(false, rs[i]), Key(false, rs[j]));
      RowsApart(n, rs[i], rs[j]);
    }
  }

  // ----- one group -----

  lemma SameBlocksCover(n: nat, a: seq<Block>, b: seq<Block>, c: Coord)
    requires AllWF(n, a) && AllWF(n, b) && forall x :: x in a <==> x in b
    ensures Covers(n, a, c) <==> Covers(n, b, c)
  {
    if Covers(n, a, c) {
      var i :| 0 <= i < |a| && InBox(c, a[i]);
      assert a[i] in b;
      var j :| 0 <= j < |b| && b[j] == a[i];
    }
    if Covers(n, b, c) {
      var i :| 0 <= i < |b| && InBox(c, b[i]);
      assert b[i] in a;
      var j :| 0 <= j < |a| && a[j] == b[i];
    }
  }

  /** The rows of a group in order of starts: sorted, disjoint, and the same set of coordinates. */
  lemma SortedRows(n: nat, g: seq<Block>)
    requires n > 0 && AllWF(n, g) && Disjoint(n, g)
    ensures var rs := Arrange(n, AllRows(n, g));
            Sep(n, rs) && KeysIncrease(n, false, rs) && UnitBelow(n, n - 1, rs) &&
            (forall x :: x in rs <==> x in AllRows(n, g)) &&
            forall c :: c in TravAll(rs) <==> Covers(n, g, c)
  {
    var r0 := AllRows(n, g);
    var rs := Arrange(n, r0);
    var p := StdOrder(Starts(n, r0), |r0|);
    AllRowsTrav(n, g);
    DisjointNoRepeat(n, g);
    DisjointNoRepeat(n, r0);
    DisjointDistinct(n, r0);
    ArrangeSorts(n, r0);
    SortedCopyFacts(n, r0, rs, p);
    forall i | 0 <= i < |rs| ensures IsRow(n, rs[i]) { assert rs[i] == r0[p[i]]; }
    RowsSep(n, rs);
    forall c ensures c in TravAll(rs) <==> Covers(n, g, c)
    {
      CoversTrav(n, rs, c);
      CoversTrav(n, r0, c);
      CoversTrav(n, g, c);
      SameBlocksCover(n, rs, r0, c);
    }
  }

  lemma EmitRunTrav(n: nat, g: seq<Block>)
    requires n > 0 && AllWF(n, g) && g != [] && Disjoint(n, g)
    ensures Increasing(TravAll(EmitRun(n, g)))
    ensures forall c :: c in TravAll(EmitRun(n, g)) <==> Covers(n, g, c)
  {
    if |g| == 1 {
      TravAllCons(g[0], []);
      assert g == [g[0]] + [] && Trav(g[0]) + [] == Trav(g[0]);
      TravIncreasing(g[0]);
      forall c ensures c in TravAll(g) <==> Covers(n, g, c) { CoversTrav(n, g, c); }
    } else {
      SortedRows(n, g);
      var rs := Arrange(n, AllRows(n, g));
      SepIncreasing(n, rs);
      MergeTrav(n, n, rs);
    }
  }

  // ----- all groups -----

  lemma {:induction false} RunLenFacts(n: nat, g: seq<Block>)
    requires AllWF(n, g) && g != []
    ensures var k := RunLen(n, g);
            (forall i :: 0 <= i < k - 1 ==> !Less(Last(g[i]), g[i + 1].start)) &&
            (k < |g| ==> Less(Last(g[k - 1]), g[k].start))
    decreases |g|
  {
    if |g| > 1 && !Less(Last(g[0]), g[1].start) {
      RunLenFacts(n, g[1..]);
      var k := RunLen(n, g);
      forall i | 0 <= i < k - 1 ensures !Less(Last(g[i]), g[i + 1].start)
      {
        if i > 0 { assert g[1..][i - 1] == g[i] && g[1..][i] == g[i + 1]; }
      }
    }
  }

  ghost predicate EndBefore(n: nat, g: seq<Block>, k: nat)
    requires AllWF(n, g) && k < |g|
  {
    forall i :: 0 <= i < k ==> Less(Last(g[i]), g[k].start)
  }

  lemma SeparatedTail(n: nat, g: seq<Block>, k: nat)
    requires AllWF(n, g) && k <= |g| && Separated(n, g)
    ensures AllWF(n, g[k..]) && Separated(n, g[k..])
    ensures 0 < k < |g| && Less(Last(g[k - 1]), g[k].start) ==> EndBefore(n, g, k)
  {
    var t := g[k..];
    forall i, j | 0 <= j <= i < |t| - 1 && Less(Last(t[i]), t[i + 1].start)
      ensures Less(Last(t[j]), t[i + 1].start)
    {
      assert t[i] == g[k + i] && t[j] == g[k + j] && t[i + 1] == g[k + i + 1];
    }
    if 0 < k < |g| && Less(Last(g[k - 1]), g[k].start) {
      var m := k - 1;
      forall i | 0 <= i < k ensures Less(Last(g[i]), g[k].start) { assert Less(Last(g[i]), g[m + 1].start); }
    }
  }

  lemma SeparatedJoin(n: nat, g: seq<Block>, k: nat)
    requires AllWF(n, g) && 0 < k <= |g| && KeysIncrease(n, false, g)
    requires forall i :: 0 <= i < k - 1 ==> !Less(Last(g[i]), g[i + 1].start)
    requires k < |g| ==> EndBefore(n, g, k)
    requires AllWF(n, g[k..]) && Separated(n, g[k..])
    ensures Separated(n, g)
  {
    var t := g[k..];
    forall i, j | 0 <= j <= i < |g| - 1 && Less(Last(g[i]), g[i + 1].start)
      ensures Less(Last(g[j]), g[i + 1].start)
    {
      if i >= k {
        assert t[i - k] == g[i] && t[i - k + 1] == g[i + 1];
        if j >= k {
          assert t[j - k] == g[j];
        } else {
          assert Less(Last(g[j]), g[k].start);
          assert Less(Key(false, g[k]), Key(false, g[i + 1]));
          LessTrans(Last(g[j]), g[k].start, g[i + 1].start);
        }
      } else {
        assert i == k - 1;
      }
    }
  }

  lemma SeparatedSplit(n: nat, g: seq<Block>)
    requires AllWF(n, g) && g != [] && KeysIncrease(n, false, g)
    ensures var k := RunLen(n, g);
            AllWF(n, g[k..]) && (Separated(n, g) <==> (k < |g| ==> EndBefore(n, g, k)) && Separated(n, g[k..]))
  {
    var k := RunLen(n, g);
    RunLenFacts(n, g);
    if Separated(n, g) { SeparatedTail(n, g, k); }
    if (k < |g| ==> EndBefore(n, g, k)) && Separated(n, g[k..]) { SeparatedJoin(n, g, k); }
  }

  lemma IncreasingSuffix(a: seq<Coord>, b: seq<Coord>)
    requires Increasing(a + b)
    ensures Increasing(b)
  {
    var s := a + b;
    forall i, j | 0 <= i < |b| && 0 <= j < |b| ensures |b[i]| == |b[j]| { assert s[|a| + i] == b[i] && s[|a| + j] == b[j]; }
    forall i, j | 0 <= i < j < |b| ensures Less(b[i], b[j]) { assert s[|a| + i] == b[i] && s[|a| + j] == b[j]; }
  }

  lemma SplitDisjoint(n: nat, g: seq<Block>, k: nat)
    requires AllWF(n, g) && k <= |g| && Disjoint(n, g)
    ensures AllWF(n, g[..k]) && AllWF(n, g[k..])
    ensures Disjoint(n, g[..k]) && Disjoint(n, g[k..])
  {
    var h, t := g[..k], g[k..];
    forall i, j | 0 <= i < j < |t| ensures Apart(t[i], t[j]) { assert Apart(g[k + i], g[k + j]); }
    forall i, j | 0 <= i < j < |h| ensures Apart(h[i], h[j]) { assert Apart(g[i], g[j]); }
  }

  lemma SplitKeys(n: nat, g: seq<Block>, k: nat)
    requires AllWF(n, g) && k <= |g| && KeysIncrease(n, false, g)
    ensures AllWF(n, g[k..]) && KeysIncrease(n, false, g[k..])
  {
    var t := g[k..];
    forall i, j | 0 <= i < j < |t| ensures Less(Key(false, t[i]), Key(false, t[j])) { assert t[i] == g[k + i] && t[j] == g[k + j]; }
  }

  lemma SplitFacts(n: nat, g: seq<Block>, k: nat)
    requires AllWF(n, g) && k <= |g|
    ensures AllWF(n, g[..k]) && AllWF(n, g[k..])
    ensures Disjoint(n, g) ==> Disjoint(n, g[..k]) && Disjoint(n, g[k..])
    ensures KeysIncrease(n, false, g) ==> KeysIncrease(n, false, g[k..])
    ensures forall c :: Covers(n, g, c) <==> Covers(n, g[..k], c) || Covers(n, g[k..], c)
  {
    if Disjoint(n, g) { SplitDisjoint(n, g, k); }
    if KeysIncrease(n, false, g) { SplitKeys(n, g, k); }
    assert g[..k] + g[k..] == g;
    forall c ensures Covers(n, g, c) <==> Covers(n, g[..k], c) || Covers(n, g[k..], c) { CoversSplit(n, g[..k], g[k..], c); }
  }

  /** The emitted selection enumerates the coordinates of the grouped list, each exactly once. */
  lemma {:induction false} EmitCovers(n: nat, g: seq<Block>)
    requires n > 0 && AllWF(n, g) && Disjoint(n, g)
    ensures forall c :: c in TravAll(Emit(n, g)) <==> Covers(n, g, c)
    ensures NoRepeat(TravAll(Emit(n, g)))
    decreases |g|
  {
    hide InBox, Trav, EmitRun, RunLen;
    if g != [] {
      var k := RunLen(n, g);
      var h, t := g[..k], g[k..];
      SplitFacts(n, g, k);
      EmitRunTrav(n, h);
      EmitCovers(n, t);
      TravAllConcat(EmitRun(n, h), Emit(n, t));
      assert Emit(n, g) == EmitGroups(n, g) == EmitRun(n, h) + Emit(n, t);
      IncreasingNoRepeat(TravAll(EmitRun(n, h)));
      forall c | c in TravAll(EmitRun(n, h)) ensures c !in TravAll(Emit(n, t))
      {
        var i :| 0 <= i < |h| && InBox(c, h[i]);
        forall j | 0 <= j < |t| ensures !InBox(c, t[j]) { assert Apart(g[i], g[k + j]); }
      }
      NoRepeatConcat(TravAll(EmitRun(n, h)), TravAll(Emit(n, t)));
    }
  }

  lemma StartLeast(n: nat, t: seq<Block>, c: Coord)
    requires AllWF(n, t) && KeysIncrease(n, false, t) && Covers(n, t, c)
    ensures |c| == n && LessEq(t[0].start, c)
  {
    var j :| 0 <= j < |t| && InBox(c, t[j]);
    BoxBelowLast(c, t[j]);
    if j > 0 {
      assert Less(Key(false, t[0]), Key(false, t[j]));
      LessEqLess(t[0].start, t[j].start, c);
    }
  }

  /** The emitted traversal is strictly increasing exactly when every cut between groups is a real one. */
  lemma {:induction false} EmitIncreasing(n: nat, g: seq<Block>)
    requires n > 0 && AllWF(n, g) && Disjoint(n, g) && KeysIncrease(n, false, g)
    ensures Increasing(TravAll(Emit(n, g))) <==> Separated(n, g)
    decreases |g|
  {
    if g != [] {
      var k := RunLen(n, g);
      var h, t := g[..k], g[k..];
      SplitFacts(n, g, k);
      EmitRunTrav(n, h);
      EmitIncreasing(n, t);
      EmitCovers(n, t);
      SeparatedSplit(n, g);
      var a, b := TravAll(EmitRun(n, h)), TravAll(Emit(n, t));
      TravAllConcat(EmitRun(n, h), Emit(n, t));
      assert Emit(n, g) == EmitGroups(n, g) == EmitRun(n, h) + Emit(n, t);
      if Increasing(a + b) {
        IncreasingSuffix(a, b);
        CutIsReal(n, g, k, a, b);
      }
      if Separated(n, g) {
        CutOrders(n, g, k, a, b);
      }
    }
  }

  lemma CutIsReal(n: nat, g: seq<Block>, k: nat, a: seq<Coord>, b: seq<Coord>)
    requires AllWF(n, g) && 0 < k <= |g| && Increasing(a + b)
    requires forall c :: c in a <==> Covers(n, g[..k], c)
    requires forall c :: c in b <==> Covers(n, g[k..], c)
    ensures k < |g| ==> EndBefore(n, g, k)
  {
    if k < |g| {
      forall i | 0 <= i < k ensures Less(Last(g[i]), g[k].start)
      {
        assert InBox(Last(g[i]), g[..k][i]);
        assert InBox(g[k].start, g[k..][0]);
        assert Covers(n, g[..k], Last(g[i])) && Covers(n, g[k..], g[k].start);
        var x :| 0 <= x < |a| && a[x] == Last(g[i]);
        var y :| 0 <= y < |b| && b[y] == g[k].start;
        assert (a + b)[x] == Last(g[i]) && (a + b)[|a| + y] == g[k].start;
      }
    }
  }

  lemma CutOrders(n: nat, g: seq<Block>, k: nat, a: seq<Coord>, b: seq<Coord>)
    requires AllWF(n, g) && 0 < k <= |g| && KeysIncrease(n, false, g) && Increasing(a) && Increasing(b)
    requires forall c :: c in a <==> Covers(n, g[..k], c)
    requires forall c :: c in b <==> Covers(n, g[k..], c)
    requires k < |g| ==> EndBefore(n, g, k)
    ensures Increasing(a + b)
  {
    SplitFacts(n, g, k);
    forall x, y | x in a && y in b ensures |x| == |y| && Less(x, y)
    {
      assert Covers(n, g[..k], x) && Covers(n, g[k..], y);
      var i :| 0 <= i < |g[..k]| && InBox(x, g[..k][i]);
      StartLeast(n, g[k..], y);
      BoxBelowLast(x, g[i]);
      assert Less(Last(g[i]), g[k].start);
      LessEqLess(x, Last(g[i]), g[k].start);
      LessEqLess(x, g[k].start, y);
    }
    IncreasingConcat(a, b);
  }

  // ----- the whole pipeline -----

  lemma PreparedFacts(n: nat, spans: seq<Block>)
    requires AllWF(n, spans) && Disjoint(n, spans)
    ensures Disjoint(n, Prepared(n, spans)) && KeysIncrease(n, false, Prepared(n, spans))
    ensures forall c :: Covers(n, Prepared(n, spans), c) <==> Covers(n, spans, c)
  {
    var m := MergePasses(n, n, spans);
    var s := Arrange(n, m);
    MergeDisjoint(n, n, spans);
    DisjointDistinct(n, m);
    ArrangeSorts(n, m);
    SortedCopyFacts(n, m, s, StdOrder(Starts(n, m), |m|));
    MergeDisjoint(n, n, s);
    MergeOrder(n, n, false, s);
    forall c ensures Covers(n, Prepared(n, spans), c) <==> Covers(n, spans, c)
    {
      MergeCovers(n, n, spans, c);
      SameBlocksCover(n, m, s, c);
      MergeCovers(n, n, s, c);
    }
  }

  /** For disjoint blocks the selection enumerates exactly their union, without repetition; it does so in
      row-major order if and only if the grouped list is separated wherever the code cuts it. */
  lemma CanonicalExact(n: nat, spans: seq<Block>)
    requires n > 0 && AllWF(n, spans) && Disjoint(n, spans)
    ensures forall c :: c in TravAll(Canonical(n, spans)) <==> Covers(n, spans, c)
    ensures NoRepeat(TravAll(Canonical(n, spans)))
    ensures Increasing(TravAll(Canonical(n, spans))) <==> Separated(n, Prepared(n, spans))
  {
    PreparedFacts(n, spans);
    EmitCovers(n, Prepared(n, spans));
    EmitIncreasing(n, Prepared(n, spans));
  }

  /** Merging and sorting keep the order of the ends. */
  lemma SpanOrderPrepared(n: nat, spans: seq<Block>)
    requires AllWF(n, spans) && Disjoint(n, spans) && KeysIncrease(n, false, spans) && KeysIncrease(n, true, spans)
    ensures KeysIncrease(n, true, Prepared(n, spans))
  {
    hide KeysIncrease, Disjoint, MergePasses, SortedCopy;
    var m := MergePasses(n, n, spans);
    var s := Arrange(n, m);
    MergeDisjoint(n, n, spans);
    MergeOrder(n, n, false, spans);
    MergeOrder(n, n, true, spans);
    DisjointDistinct(n, m);
    ArrangeSorts(n, m);
    SortedCopyFacts(n, m, s, StdOrder(Starts(n, m), |m|));
    SortUnique(n, m, s);
    MergeOrder(n, n, true, s);
  }

  lemma EndsSeparate(n: nat, g: seq<Block>)
    requires AllWF(n, g) && KeysIncrease(n, true, g)
    ensures Separated(n, g)
  {
    hide Less;
    forall i, k | 0 <= k <= i < |g| - 1 && Less(Last(g[i]), g[i + 1].start)
      ensures Less(Last(g[k]), g[i + 1].start)
    {
      if k < i {
        assert Less(Key(true, g[k]), Key(true, g[i]));
        LessTrans(Last(g[k]), Last(g[i]), g[i + 1].start);
      }
    }
  }

  /** Blocks in the order of HDF5's span lists - starts and ends both strictly increasing - always come out
      in row-major order. */
  lemma CanonicalSpanOrder(n: nat, spans: seq<Block>)
    requires n > 0 && AllWF(n, spans) && Disjoint(n, spans)
    requires KeysIncrease(n, false, spans) && KeysIncrease(n, true, spans)
    ensures Increasing(TravAll(Canonical(n, spans)))
    ensures forall c :: c in TravAll(Canonical(n, spans)) <==> Covers(n, spans, c)
  {
    hide KeysIncrease, Prepared, Separated, Canonical, Increasing, Disjoint;
    SpanOrderPrepared(n, spans);
    EndsSeparate(n, Prepared(n, spans));
    CanonicalExact(n, spans);
  }

  /** Comparing a block with its direct predecessor only is enough because of HDF5's span order, not in general:
      in this list the ends do not increase - a column spans two later blocks and is cut off from the second of
      them - and the traversal goes back. HDF5 delivers no such list, so this is no failure of the program. */
  lemma AdjacentComparisonIsNotEnough()
    ensures AllWF(2, Crossing()) && Disjoint(2, Crossing()) && KeysIncrease(2, false, Crossing())
    ensures !Increasing(TravAll(Canonical(2, Crossing())))
  {
    hide Canonical, Increasing, Disjoint, KeysIncrease, Prepared, Separated, Crossing;
    CrossingFacts();
    CrossingPrepared();
    CrossingNotSeparated();
    CanonicalExact(2, Crossing());
  }

  lemma CrossingPrepared()
    ensures AllWF(2, Crossing()) && Prepared(2, Crossing()) == Crossing()
  {
    hide Disjoint, Less;
    var spans := Crossing();
    CrossingFacts();
    NothingToMerge(spans, 1);
    NothingToMerge(spans, 0);
    assert MergePasses(2, 2, spans) == MergePasses(2, 1, spans) == MergePasses(2, 0, spans) == spans;
    DisjointDistinct(2, spans);
    ArrangeSorts(2, spans);
    SortedCopyFacts(2, spans, Arrange(2, spans), StdOrder(Starts(2, spans), 3));
    SortUnique(2, spans, Arrange(2, spans));
  }

  lemma CrossingNotSeparated()
    ensures AllWF(2, Crossing()) && !Separated(2, Crossing())
  {
    hide Disjoint, Less;
    var spans := Crossing();
    CrossingFacts();
    assert Less(Last(spans[1]), spans[1 + 1].start) && !Less(Last(spans[0]), spans[1 + 1].start);
  }

  function Crossing(): seq<Block>
  {
    [Block([0, 0], [11, 1]), Block([1, 5], [1, 1]), Block([3, 5], [1, 1])]
  }

  lemma CrossingFacts()
    ensures AllWF(2, Crossing()) && Disjoint(2, Crossing()) && KeysIncrease(2, false, Crossing())
    ensures Less(Last(Crossing()[1]), Crossing()[2].start) && !Less(Last(Crossing()[0]), Crossing()[2].start)
  {
    var a, b, c := Crossing()[0], Crossing()[1], Crossing()[2];
    assert Apart(a, b) by { forall x | InBox(x, a) ensures !InBox(x, b) { assert x[1] < a.start[1] + a.count[1]; } }
    assert Apart(a, c) by { forall x | InBox(x, a) ensures !InBox(x, c) { assert x[1] < a.start[1] + a.count[1]; } }
    assert Apart(b, c) by { forall x | InBox(x, b) ensures !InBox(x, c) { assert x[0] < b.start[0] + b.count[0]; } }
    assert Last(b)[0] == 1 && Last(a)[0] == 10;
  }

  lemma NothingToMerge(spans: seq<Block>, d: nat)
    requires spans == Crossing() && d < 2
    ensures AllWF(2, spans) && MergePass(2, d, spans) == spans
  {
    var t := spans[1..];
    assert !Adjacent(spans[0], spans[1], d) by { assert spans[0].start[1 - d] != spans[1].start[1 - d]; }
    assert !Adjacent(t[0], t[1], d) by { assert t[0].start[0] + t[0].count[0] != t[1].start[0]; }
    assert MergePass(2, d, t[1..]) == t[1..];
    assert MergePass(2, d, t) == t;
  }
}
