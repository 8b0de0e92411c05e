/** `sortblocks`: sort an index array, then apply the permutation to the pointers in place by following its
    cycles. */
module BlockSort {
  import opened Grid

  ghost predicate IsPerm(p: seq<int>, n: nat)
  {
    |p| == n &&
    (forall t :: 0 <= t < n ==> 0 <= p[t] < n) &&
    (forall t, u :: 0 <= t < u < n ==> p[t] != p[u]) &&
    (forall v :: 0 <= v < n ==> v in p)
  }

  ghost predicate SameRank(keys: seq<Coord>)
  {
    forall t, u :: 0 <= t < |keys| && 0 <= u < |keys| ==> |keys[t]| == |keys[u]|
  }

  ghost predicate Ordered(keys: seq<Coord>)
    requires SameRank(keys)
  {
    forall t, u :: 0 <= t < u < |keys| ==> LessEq(keys[t], keys[u])
  }

  ghost predicate OrderedBy(keys: seq<Coord>, p: seq<int>)
    requires SameRank(keys) && forall t :: 0 <= t < |p| ==> 0 <= p[t] < |keys|
  {
    forall t, u :: 0 <= t < u < |p| ==> LessEq(keys[p[t]], keys[p[u]])
  }

  /** Position at which index v enters an ordered index sequence. */
  function Slot(keys: seq<Coord>, p: seq<int>, v: nat): (k: nat)
    requires SameRank(keys) && v < |keys| && forall t :: 0 <= t < |p| ==> 0 <= p[t] < |keys|
    ensures k <= |p|
    ensures forall t :: 0 <= t < k ==> !Less(keys[v], keys[p[t]])
    ensures k < |p| ==> Less(keys[v], keys[p[k]])
    decreases |p|
  {
    if p == [] || Less(keys[v], keys[p[0]]) then 0 else 1 + Slot(keys, p[1..], v)
  }

  /** Stands for `std::sort` on the index vector; callers use its contract only. */
  function StdOrder(keys: seq<Coord>, n: nat): (p: seq<int>)
    requires SameRank(keys) && n <= |keys|
    ensures IsPerm(p, n) && OrderedBy(keys, p)
  {
    if n == 0 then [] else
      var q := StdOrder(keys, n - 1);
      InsertKeepsOrder(keys, q, n - 1);
      Inserted(keys, q, n - 1)
  }

  lemma InsertKeepsPerm(q: seq<int>, v: nat, k: nat)
    requires IsPerm(q, v) && k <= v
    ensures IsPerm(q[..k] + [v] + q[k..], v + 1)
  {
    var p := q[..k] + [v] + q[k..];
    forall u | 0 <= u < v + 1 ensures u in p
    {
      if u < v {
        assert u in q;
        var t :| 0 <= t < |q| && q[t] == u;
        assert p[if t < k then t else t + 1] == u;
      } else {
        assert p[k] == v;
      }
    }
  }

  function Inserted(keys: seq<Coord>, q: seq<int>, v: nat): seq<int>
    requires SameRank(keys) && v < |keys| && forall t :: 0 <= t < |q| ==> 0 <= q[t] < |keys|
  {
    q[..Slot(keys, q, v)] + [v] + q[Slot(keys, q, v)..]
  }

  lemma InsertKeepsOrder(keys: seq<Coord>, q: seq<int>, v: nat)
    requires SameRank(keys) && v < |keys| && IsPerm(q, v) && OrderedBy(keys, q)
    ensures IsPerm(Inserted(keys, q, v), v + 1) && OrderedBy(keys, Inserted(keys, q, v))
  {
    hide Less, Slot;
    var k := Slot(keys, q, v);
    var p := q[..k] + [v] + q[k..];
    InsertKeepsPerm(q, v, k);
    forall t, u | 0 <= t < u < |p|
      ensures LessEq(keys[p[t]], keys[p[u]])
    {
      if u == k {
        assert p[t] == q[t];
        LessTotal(keys[q[t]], keys[v]);
      } else if t == k {
        assert p[u] == q[u - 1];
        if u - 1 > k { LessEqLess(keys[v], keys[q[k]], keys[q[u - 1]]); }
      } else {
        assert p[t] == (if t < k then q[t] else q[t - 1]) && p[u] == if u < k then q[u] else q[u - 1];
      }
    }
  }

  /** The contents of one row: the start, and the count or last coordinate. */
  datatype Cell = Cell(start: Coord, ext: Coord)

  /** Two parallel arrays of pointers: the rows of the allocation, and which row every slot points to. Starts
      and counts point to rows of the same number, as both are always assigned together. */
  datatype Slots = Slots(rows: seq<Cell>, refs: seq<int>)

  predicate SlotsOk(n: nat, s: Slots)
  {
    (forall t {:trigger s.refs[t]} :: 0 <= t < |s.refs| ==> 0 <= s.refs[t] < |s.rows|) &&
    forall y {:trigger s.rows[y]} :: 0 <= y < |s.rows| ==> |s.rows[y].start| == |s.rows[y].ext| == n
  }

  /** The starts that `len` slots point to. */
  function KeysAt(n: nat, s: Slots, off: nat, len: nat): (keys: seq<Coord>)
    requires SlotsOk(n, s) && off + len <= |s.refs|
    ensures |keys| == len && SameRank(keys)
  {
    var keys := seq(len, t requires 0 <= t < len => s.rows[s.refs[off + t]].start);
    assert forall t :: 0 <= t < len ==> |keys[t]| == n;
    keys
  }

  /** The pointers after a sort of `len` slots; the rows stay where they are. */
  function SortSlots(n: nat, s: Slots, off: nat, len: nat): (r: Slots)
    requires SlotsOk(n, s) && off + len <= |s.refs|
    ensures SlotsOk(n, r) && r.rows == s.rows && |r.refs| == |s.refs|
  {
    var p := StdOrder(KeysAt(n, s, off, len), len);
    s.(refs := Reordered(s.refs, off, p))
  }

  function Reordered(refs: seq<int>, off: nat, p: seq<int>): (r: seq<int>)
    requires off + |p| <= |refs| && forall t :: 0 <= t < |p| ==> 0 <= p[t] < |p|
    ensures |r| == |refs|
    ensures forall t {:trigger r[t]} :: 0 <= t < |refs| ==> r[t] == if off <= t < off + |p| then refs[off + p[t - off]] else refs[t]
  {
    seq(|refs|, t requires 0 <= t < |refs| => if off <= t < off + |p| then refs[off + p[t - off]] else refs[t])
  }

  /** Before the block at position t is placed it still holds its original content; afterwards it holds
      the block that the sorted order puts there.  The hole holds neither. */
  ghost predicate Holds(cur: seq<int>, was: seq<int>, off: nat, order: seq<int>, undone: set<int>, hole: int)
    requires |cur| == |was| && off + |order| <= |cur|
    requires forall t :: 0 <= t < |order| ==> 0 <= order[t] < |order|
  {
    (forall t {:trigger cur[t]} :: 0 <= t < |cur| && (t < off || off + |order| <= t) ==> cur[t] == was[t]) &&
    (forall t {:trigger cur[t]} :: off <= t < off + |order| && t - off !in undone ==> cur[t] == was[off + order[t - off]]) &&
    (forall t {:trigger cur[t]} :: off <= t < off + |order| && t - off in undone && t - off != hole ==> cur[t] == was[t])
  }

  lemma WeakenHole(cur: seq<int>, was: seq<int>, off: nat, order: seq<int>, undone: set<int>, hole: int)
    requires |cur| == |was| && off + |order| <= |cur|
    requires forall t :: 0 <= t < |order| ==> 0 <= order[t] < |order|
    requires Holds(cur, was, off, order, undone, -1)
    ensures Holds(cur, was, off, order, undone, hole)
  {
  }

  lemma PlaceBlock(cur: seq<int>, was: seq<int>, off: nat, order: seq<int>, undone: set<int>, j: nat, hole: int, v: int)
    requires |cur| == |was| && off + |order| <= |cur|
    requires forall t :: 0 <= t < |order| ==> 0 <= order[t] < |order|
    requires Holds(cur, was, off, order, undone, j) && j in undone && j < |order|
    requires v == was[off + order[j]]
    ensures Holds(cur[off + j := v], was, off, order, undone - {j}, hole)
  {
  }

  ghost predicate IsInjection(p: seq<int>)
  {
    (forall t :: 0 <= t < |p| ==> 0 <= p[t] < |p|) &&
    (forall t, u :: 0 <= t < u < |p| ==> p[t] != p[u])
  }

  /** Blocks not yet placed form whole cycles of the permutation, up to the block i taken out. */
  ghost predicate CycleInv(order: seq<int>, idx: seq<int>, undone: set<int>, i: nat)
  {
    |idx| == |order| &&
    (forall t :: t in undone ==> i <= t < |order|) &&
    (forall t {:trigger idx[t]} :: t in undone ==> idx[t] == order[t] != t && (order[t] in undone || order[t] == i)) &&
    (forall t {:trigger idx[t]} :: 0 <= t < |order| && t !in undone ==> idx[t] == t)
  }

  ghost predicate Closed(order: seq<int>, undone: set<int>)
  {
    forall t {:trigger order[t]} :: t in undone && 0 <= t < |order| ==> order[t] in undone
  }

  ghost predicate NotAnImage(order: seq<int>, undone: set<int>, j: int)
  {
    forall t {:trigger order[t]} :: t in undone && 0 <= t < |order| ==> order[t] != j
  }

  lemma StartClosed(order: seq<int>, undone: set<int>)
    requires IsInjection(order) && undone == set t | 0 <= t < |order| && order[t] != t
    ensures Closed(order, undone)
  {
    forall t | t in undone ensures order[t] in undone
    {
      assert 0 <= order[t] < |order|;
      assert order[order[t]] != order[t];
    }
  }

  lemma StartInv(order: seq<int>, undone: set<int>)
    requires Closed(order, undone) && undone == set t | 0 <= t < |order| && order[t] != t
    ensures CycleInv(order, order, undone, 0)
  {
  }

  lemma StartCycles(was: seq<int>, off: nat, order: seq<int>, undone: set<int>)
    requires IsInjection(order) && off + |order| <= |was|
    requires undone == set t | 0 <= t < |order| && order[t] != t
    ensures CycleInv(order, order, undone, 0) && Closed(order, undone)
    ensures Holds(was, was, off, order, undone, -1)
  {
    hide CycleInv, Closed;
    StartClosed(order, undone);
    StartInv(order, undone);
    forall t | off <= t < off + |order| && t - off !in undone
      ensures was[t] == was[off + order[t - off]]
    {
      assert order[t - off] == t - off;
    }
  }

  lemma StepCycle(order: seq<int>, idx: seq<int>, undone: set<int>, i: nat, j: nat)
    requires IsInjection(order) && CycleInv(order, idx, undone, i) && j in undone
    requires j != i ==> i !in undone && NotAnImage(order, undone, j)
    requires j == i ==> Closed(order, undone)
    ensures idx[j] == order[j] && CycleInv(order, idx[j := j], undone - {j}, i)
    ensures NotAnImage(order, undone - {j}, order[j])
    ensures order[j] != i ==> order[j] in undone - {j}
    ensures order[j] == i ==> Closed(order, undone - {j})
  {
    assert idx[j] == order[j];
    var idx', rest := idx[j := j], undone - {j};
    forall t | t in rest
      ensures order[t] != order[j] && idx'[t] == order[t] != t && (order[t] in rest || order[t] == i)
    {
      assert idx[t] == order[t];
      assert order[t] == j ==> j == i;
    }
    forall t | 0 <= t < |order| && t !in rest
      ensures idx'[t] == t
    {
      assert t != j ==> idx[t] == t;
    }
  }

  lemma NextCycle(order: seq<int>, idx: seq<int>, undone: set<int>, i: nat)
    requires CycleInv(order, idx, undone, i) && i < |order| && Closed(order, undone)
    requires idx[i] == i || i !in undone
    ensures CycleInv(order, idx, undone, i + 1)
  {
    assert i !in undone;
    forall t | t in undone ensures idx[t] == order[t] != t && order[t] in undone
    {
      assert idx[t] == order[t];
    }
  }

  lemma AllPlaced(order: seq<int>, idx: seq<int>, undone: set<int>)
    requires CycleInv(order, idx, undone, |order|)
    ensures undone == {}
  {
    assert forall t :: t !in undone;
  }

  lemma SortedResult(n: nat, s: Slots, r: Slots, off: nat, len: nat)
    requires SlotsOk(n, s) && off + len <= |s.refs| && r == SortSlots(n, s, off, len)
    ensures Ordered(KeysAt(n, r, off, len))
  {
    hide Less;
    var keys, now := KeysAt(n, s, off, len), KeysAt(n, r, off, len);
    var p := StdOrder(keys, len);
    forall t | 0 <= t < len ensures now[t] == keys[p[t]] { assert r.refs[off + t] == s.refs[off + p[off + t - off]]; }
  }

  lemma HeldIsReordered(cur: seq<int>, was: seq<int>, off: nat, order: seq<int>)
    requires IsInjection(order) && off + |order| <= |was| == |cur| && Holds(cur, was, off, order, {}, -1)
    ensures cur == Reordered(was, off, order)
  {
    var r := Reordered(was, off, order);
    forall t | 0 <= t < |cur| ensures cur[t] == r[t] {}
  }

  /** One cycle: pull out block i and move blocks along until the walk is back at i. */
  method FollowCycle(refs: array<int>, off: nat, order: seq<int>, idx0: seq<int>, i: nat,
                     ghost s0: seq<int>, ghost undone0: set<int>)
    returns (idx: seq<int>, ghost undone: set<int>)
    requires off + |order| <= refs.Length == |s0| && IsInjection(order)
    requires CycleInv(order, idx0, undone0, i) && Closed(order, undone0) && i < |order| && idx0[i] != i
    requires Holds(refs[..], s0, off, order, undone0, -1)
    modifies refs
    ensures CycleInv(order, idx, undone, i) && Closed(order, undone) && i !in undone
    ensures Holds(refs[..], s0, off, order, undone, -1)
  {
    idx, undone := idx0, undone0;
    var tmp := refs[off + i];
    var j := i;
    var k := idx[j];
    WeakenHole(refs[..], s0, off, order, undone, i);
    while k != i
      invariant 0 <= j < |order| && k == order[j] && j in undone
      invariant tmp == s0[off + i]
      invariant CycleInv(order, idx, undone, i)
      invariant Holds(refs[..], s0, off, order, undone, j)
      invariant j != i ==> i !in undone && NotAnImage(order, undone, j)
      invariant j == i ==> Closed(order, undone)
      decreases undone
    {
      ghost var cur := refs[..];
      StepCycle(order, idx, undone, i, j);
      assert cur[off + k] == s0[off + k];
      PlaceBlock(cur, s0, off, order, undone, j, k, cur[off + k]);
      refs[off + j] := refs[off + k];
      assert refs[..] == cur[off + j := cur[off + k]];
      idx := idx[j := j];
      undone := undone - {j};
      j := k;
      k := idx[j];
    }
    ghost var cur := refs[..];
    PlaceBlock(cur, s0, off, order, undone, j, -1, tmp);
    StepCycle(order, idx, undone, i, j);
    refs[off + j] := tmp;
    assert refs[..] == cur[off + j := tmp];
    idx := idx[j := j];
    undone := undone - {j};
  }

  /** Reorder according to the index: every block is moved once, to the place the index gives it. */
  method ApplyOrder(refs: array<int>, off: nat, order: seq<int>)
    requires off + |order| <= refs.Length && IsInjection(order)
    modifies refs
    ensures Holds(refs[..], old(refs[..]), off, order, {}, -1)
  {
    ghost var s0 := refs[..];
    var idx := order;
    ghost var undone := set t | 0 <= t < |order| && order[t] != t;
    StartCycles(s0, off, order, undone);
    var i := 0;
    while i < |order|
      invariant 0 <= i <= |order|
      invariant CycleInv(order, idx, undone, i) && Closed(order, undone)
      invariant Holds(refs[..], s0, off, order, undone, -1)
    {
      if idx[i] != i {
        idx, undone := FollowCycle(refs, off, order, idx, i, s0, undone);
      }
      NextCycle(order, idx, undone, i);
      i := i + 1;
    }
    AllPlaced(order, idx, undone);
  }

  /** Sorts the pointers of `len` slots that begin at index `off` by the starts they point to. */
  method SortBlocks(n: nat, rows: array<Cell>, refs: array<int>, off: nat, len: nat)
    requires off + len <= refs.Length && SlotsOk(n, Slots(rows[..], refs[..]))
    modifies refs
    ensures Slots(rows[..], refs[..]) == SortSlots(n, Slots(rows[..], old(refs[..])), off, len)
    ensures Ordered(KeysAt(n, Slots(rows[..], refs[..]), off, len))
  {
    hide Holds;
    ghost var s := Slots(rows[..], refs[..]);
    var keys := seq(len, t requires 0 <= t < len && off + len <= refs.Length && 0 <= refs[off + t] < rows.Length reads rows, refs => rows[refs[off + t]].start);
    assert keys == KeysAt(n, s, off, len);
    var idx := StdOrder(keys, len);
    ApplyOrder(refs, off, idx);
    HeldIsReordered(refs[..], s.refs, off, idx);
    SortedResult(n, s, Slots(rows[..], refs[..]), off, len);
  }
}
