/** Coordinates of an N-dimensional dataset, their lexicographic order, and row-major traversal of
    blocks.  Everything that the canonicaliser, the selection codec and the read planner say about
    "order" is said in the terms of this module. */
module Grid {

  type Coord = seq<nat>

  /** A selected block: first coordinate and number of elements along every dimension. */
  datatype Block = Block(start: Coord, count: Coord)

  /** The order decided by `lessthan`: the first differing dimension decides. */
  predicate Less(a: Coord, b: Coord)
    requires |a| == |b|
    decreases |a|
  {
    |a| > 0 && (a[0] < b[0] || (a[0] == b[0] && Less(a[1..], b[1..])))
  }

  predicate LessEq(a: Coord, b: Coord)
    requires |a| == |b|
  {
    a == b || Less(a, b)
  }

  lemma {:induction false} LessTrans(a: Coord, b: Coord, c: Coord)
    requires |a| == |b| == |c|
    requires Less(a, b) && Less(b, c)
    ensures Less(a, c)
    decreases |a|
  {
    if a[0] == b[0] == c[0] {
      LessTrans(a[1..], b[1..], c[1..]);
    }
  }

  lemma {:induction false} LessIrrefl(a: Coord)
    ensures !Less(a, a)
    decreases |a|
  {
    if |a| > 0 { LessIrrefl(a[1..]); }
  }

  lemma {:induction false} LessTotal(a: Coord, b: Coord)
    requires |a| == |b|
    ensures Less(a, b) || Less(b, a) || a == b
    decreases |a|
  {
    if |a| > 0 && a[0] == b[0] {
      LessTotal(a[1..], b[1..]);
      assert a == [a[0]] + a[1..] && b == [b[0]] + b[1..];
    }
  }

  lemma {:induction false} LessAsym(a: Coord, b: Coord)
    requires |a| == |b| && Less(a, b)
    ensures !Less(b, a) && a != b
  {
    LessIrrefl(a);
    if Less(b, a) { LessTrans(a, b, a); }
  }

  lemma {:induction false} LessEqLess(a: Coord, b: Coord, c: Coord)
    requires |a| == |b| == |c|
    requires (LessEq(a, b) && Less(b, c)) || (Less(a, b) && LessEq(b, c))
    ensures Less(a, c)
  {
    if Less(a, b) && Less(b, c) { LessTrans(a, b, c); }
  }

  /** Coordinates that agree up to dimension k are ordered by dimension k. */
  lemma {:induction false} LessByPrefix(a: Coord, b: Coord, k: nat)
    requires |a| == |b| && k < |a|
    requires a[..k] == b[..k] && a[k] < b[k]
    ensures Less(a, b)
    decreases k
  {
    if k > 0 {
      assert a[1..][..k - 1] == a[..k][1..] && b[1..][..k - 1] == b[..k][1..];
      assert a[0] == a[..k][0] == b[..k][0] == b[0];
      LessByPrefix(a[1..], b[1..], k - 1);
    }
  }

  function Prod(dims: Coord): nat
    decreases |dims|
  {
    if dims == [] then 1 else dims[0] * Prod(dims[1..])
  }

  /** Row-major position of c in an array of the given dimensions. */
  function Linear(dims: Coord, c: Coord): nat
    requires |dims| == |c|
    decreases |dims|
  {
    if dims == [] then 0 else c[0] * Prod(dims[1..]) + Linear(dims[1..], c[1..])
  }

  predicate Positive(c: Coord) { forall k :: 0 <= k < |c| ==> c[k] > 0 }

  predicate InBounds(dims: Coord, c: Coord)
  {
    |c| == |dims| && forall k :: 0 <= k < |c| ==> c[k] < dims[k]
  }

  /** Every digit but the leading one is below its radix. */
  predicate InRadix(dims: Coord, c: Coord)
  {
    |c| == |dims| && forall k :: 1 <= k < |c| ==> c[k] < dims[k]
  }

  predicate InBox(c: Coord, b: Block)
    requires |b.start| == |b.count|
  {
    |c| == |b.start| && forall k :: 0 <= k < |c| ==> b.start[k] <= c[k] < b.start[k] + b.count[k]
  }

  predicate WF(n: nat, b: Block)
  {
    |b.start| == n && |b.count| == n && Positive(b.count)
  }

  function Add(a: Coord, b: Coord): Coord
    requires |a| == |b|
  {
    seq(|a|, k requires 0 <= k < |a| => a[k] + b[k])
  }

  function Sub(a: Coord, b: Coord): Coord
    requires |a| == |b| && forall k :: 0 <= k < |a| ==> b[k] <= a[k]
  {
    seq(|a|, k requires 0 <= k < |a| => a[k] - b[k])
  }

  /** The last coordinate of a non-empty block, its maximum in lexicographic order. */
  function Last(b: Block): Coord
    requires |b.start| == |b.count| && Positive(b.count)
  {
    seq(|b.start|, k requires 0 <= k < |b.start| => b.start[k] + b.count[k] - 1)
  }

  lemma {:induction false} ProdPositive(dims: Coord)
    requires Positive(dims)
    ensures Prod(dims) > 0
    decreases |dims|
  {
    if dims != [] { ProdPositive(dims[1..]); }
  }

  lemma {:induction false} MulGap(a: nat, b: nat, p: nat, x: nat, y: nat)
    requires a < b && x < p
    ensures a * p + x < b * p + y
  {
    assert (a + 1) * p <= b * p;
  }

  lemma Distribute(a: nat, b: nat, e: nat)
    ensures (a + b) * e == a * e + b * e
  {
  }

  lemma MulAssoc(a: nat, b: nat, c: nat)
    ensures a * (b * c) == (a * b) * c
  {
  }

  lemma Scale(p: nat, a: nat, b: nat)
    requires p > 0 && a < b
    ensures p * a < p * b
  {
  }

  lemma ConcatAssoc<T>(a: seq<T>, b: seq<T>, c: seq<T>)
    ensures a + (b + c) == (a + b) + c
  {
  }

  lemma {:induction false} ProdSnoc(c: Coord, k: nat)
    requires k < |c|
    ensures Prod(c[..k + 1]) == Prod(c[..k]) * c[k]
    decreases k
  {
    if k == 0 {
      assert c[..1][1..] == [] && c[..0] == [];
    } else {
      ProdSnoc(c[1..], k - 1);
      assert c[..k + 1][1..] == c[1..][..k] && c[..k][1..] == c[1..][..k - 1];
      MulAssoc(c[0], Prod(c[1..][..k - 1]), c[k]);
    }
  }

  lemma MulMono(a: nat, b: nat, p: nat)
    requires a <= b
    ensures a * p <= b * p
  {
  }

  lemma {:induction false} LinearBound(dims: Coord, c: Coord)
    requires InBounds(dims, c)
    ensures Linear(dims, c) < Prod(dims)
    decreases |dims|
  {
    if dims != [] {
      LinearBound(dims[1..], c[1..]);
      MulGap(c[0], dims[0], Prod(dims[1..]), Linear(dims[1..], c[1..]), 0);
    }
  }

  /** Row-major position is an order isomorphism on coordinates whose trailing digits are in range. */
  lemma {:induction false} LinearOrder(dims: Coord, a: Coord, b: Coord)
    requires InRadix(dims, a) && InRadix(dims, b)
    ensures Less(a, b) <==> Linear(dims, a) < Linear(dims, b)
    ensures a == b <==> Linear(dims, a) == Linear(dims, b)
    decreases |dims|
  {
    if dims != [] {
      LinearOrder(dims[1..], a[1..], b[1..]);
      LinearBound(dims[1..], a[1..]);
      LinearBound(dims[1..], b[1..]);
      var p := Prod(dims[1..]);
      assert a == [a[0]] + a[1..] && b == [b[0]] + b[1..];
      if a[0] < b[0] {
        MulGap(a[0], b[0], p, Linear(dims[1..], a[1..]), Linear(dims[1..], b[1..]));
      } else if b[0] < a[0] {
        MulGap(b[0], a[0], p, Linear(dims[1..], b[1..]), Linear(dims[1..], a[1..]));
      }
    }
  }

  /** Shifting both coordinates by the same offset keeps their order. */
  lemma {:induction false} LessShift(a: Coord, b: Coord, s: Coord)
    requires |a| == |b| == |s|
    ensures Less(a, b) <==> Less(Add(a, s), Add(b, s))
    decreases |a|
  {
    if |a| > 0 {
      LessShift(a[1..], b[1..], s[1..]);
      assert Add(a, s)[1..] == Add(a[1..], s[1..]);
      assert Add(b, s)[1..] == Add(b[1..], s[1..]);
    }
  }

  function Tail(b: Block): (t: Block)
    requires |b.start| == |b.count| > 0
    ensures |t.start| == |t.count| == |b.start| - 1
  {
    Block(b.start[1..], b.count[1..])
  }

  lemma InBoxTail(c: Coord, b: Block)
    requires |b.start| == |b.count| == |c| > 0
    ensures InBox(c, b) <==> b.start[0] <= c[0] < b.start[0] + b.count[0] && InBox(c[1..], Tail(b))
  {
    if InBox(c[1..], Tail(b)) {
      forall k | 1 <= k < |c|
        ensures b.start[k] <= c[k] < b.start[k] + b.count[k]
      {
        assert Tail(b).start[k - 1] <= c[1..][k - 1] < Tail(b).start[k - 1] + Tail(b).count[k - 1];
      }
    }
  }

  lemma LastTail(b: Block)
    requires |b.start| == |b.count| > 0 && Positive(b.count)
    ensures Positive(Tail(b).count)
    ensures Last(b) == [b.start[0] + b.count[0] - 1] + Last(Tail(b))
  {
  }

  lemma LessEqCons(a: Coord, b: Coord)
    requires |a| == |b| > 0
    ensures LessEq(a, b) <==> a[0] < b[0] || (a[0] == b[0] && LessEq(a[1..], b[1..]))
  {
    assert a == [a[0]] + a[1..] && b == [b[0]] + b[1..];
  }

  lemma {:induction false} BoxBelowLast(c: Coord, b: Block)
    requires |b.start| == |b.count| && Positive(b.count) && InBox(c, b)
    ensures LessEq(c, Last(b)) && LessEq(b.start, c)
    decreases |c|
  {
    if |c| > 0 {
      InBoxTail(c, b);
      LastTail(b);
      BoxBelowLast(c[1..], Tail(b));
      LessEqCons(c, Last(b));
      LessEqCons(b.start, c);
    }
  }

  // ----- row-major traversal -----

  function Prepend(h: nat, tails: seq<Coord>): (r: seq<Coord>)
    ensures |r| == |tails|
  {
    seq(|tails|, i requires 0 <= i < |tails| => [h] + tails[i])
  }

  function Slabs(h: nat, n: nat, tails: seq<Coord>): seq<Coord>
    decreases n
  {
    if n == 0 then [] else Prepend(h, tails) + Slabs(h + 1, n - 1, tails)
  }

  /** The coordinates of a block in row-major order. */
  function Trav(b: Block): seq<Coord>
    requires |b.start| == |b.count|
    decreases |b.start|
  {
    if b.start == [] then [[]] else Slabs(b.start[0], b.count[0], Trav(Tail(b)))
  }

  predicate Shaped(bs: seq<Block>) { forall i :: 0 <= i < |bs| ==> |bs[i].start| == |bs[i].count| }

  /** The concatenated traversals of a block list: the order in which a selection's data is stored. */
  function TravAll(bs: seq<Block>): seq<Coord>
    requires Shaped(bs)
    decreases |bs|
  {
    if bs == [] then [] else Trav(bs[0]) + TravAll(bs[1..])
  }

  ghost predicate Increasing(s: seq<Coord>)
  {
    (forall i, j :: 0 <= i < |s| && 0 <= j < |s| ==> |s[i]| == |s[j]|) &&
    forall i, j :: 0 <= i < j < |s| ==> Less(s[i], s[j])
  }

  lemma {:induction false} SlabsLen(h: nat, n: nat, tails: seq<Coord>)
    ensures |Slabs(h, n, tails)| == n * |tails|
    decreases n
  {
    if n > 0 {
      SlabsLen(h + 1, n - 1, tails);
      assert n * |tails| == |tails| + (n - 1) * |tails|;
    }
  }

  lemma {:induction false} TravLen(b: Block)
    requires |b.start| == |b.count|
    ensures |Trav(b)| == Prod(b.count)
    decreases |b.start|
  {
    if |b.start| > 0 {
      TravLen(Tail(b));
      SlabsLen(b.start[0], b.count[0], Trav(Tail(b)));
    }
  }

  lemma {:induction false} SlabsAt(h: nat, n: nat, tails: seq<Coord>, i: nat, j: nat)
    requires i < n && j < |tails|
    ensures i * |tails| + j < n * |tails| == |Slabs(h, n, tails)|
    ensures Slabs(h, n, tails)[i * |tails| + j] == [h + i] + tails[j]
    decreases n
  {
    MulGap(i, n, |tails|, j, 0);
    SlabsLen(h, n, tails);
    if i > 0 {
      SlabsAt(h + 1, n - 1, tails, i - 1, j);
      assert i * |tails| == (i - 1) * |tails| + |tails|;
      assert i * |tails| + j - |tails| == (i - 1) * |tails| + j;
    }
  }

  lemma {:induction false} SlabsElem(h: nat, n: nat, tails: seq<Coord>, t: nat) returns (i: nat, j: nat)
    requires t < n * |tails|
    ensures |Slabs(h, n, tails)| == n * |tails|
    ensures i < n && j < |tails| && t == i * |tails| + j
    ensures Slabs(h, n, tails)[t] == [h + i] + tails[j]
    decreases n
  {
    if t < |tails| {
      i, j := 0, t;
    } else {
      assert n * |tails| == (n - 1) * |tails| + |tails|;
      var i' , j' := SlabsElem(h + 1, n - 1, tails, t - |tails|);
      i, j := i' + 1, j';
      assert i * |tails| == i' * |tails| + |tails|;
    }
    SlabsAt(h, n, tails, i, j);
  }

  lemma TravUnfold(b: Block)
    requires |b.start| == |b.count|
    ensures Trav(b) == if |b.start| == 0 then [[]] else Slabs(b.start[0], b.count[0], Trav(Tail(b)))
  {
  }

  lemma LinearOfNothing(dims: Coord, c: Coord)
    requires |dims| == |c| == 0
    ensures Linear(dims, c) == 0
  {
  }

  /** A coordinate of the block sits in the traversal at its row-major position. */
  lemma {:induction false} TravAt(b: Block, c: Coord)
    requires |b.start| == |b.count| && InBox(c, b)
    ensures Linear(b.count, Sub(c, b.start)) < |Trav(b)|
    ensures Trav(b)[Linear(b.count, Sub(c, b.start))] == c
    decreases |c|
  {
    hide Trav, Slabs, Linear, Prod;
    TravUnfold(b);
    if |c| == 0 {
      LinearOfNothing(b.count, Sub(c, b.start));
    } else {
      InBoxTail(c, b);
      TravAt(Tail(b), c[1..]);
      TravLen(Tail(b));
      var i, j := c[0] - b.start[0], Linear(Tail(b).count, Sub(c[1..], Tail(b).start));
      assert c == [b.start[0] + i] + c[1..];
      InBoxCons(i, c[1..], b);
      SlabsAt(b.start[0], b.count[0], Trav(Tail(b)), i, j);
    }
  }

  lemma TravHead(b: Block, t: nat) returns (i: nat, j: nat)
    requires |b.start| == |b.count| > 0 && t < |Trav(b)|
    ensures i < b.count[0] && j < |Trav(Tail(b))| && t == i * Prod(Tail(b).count) + j
    ensures Trav(b)[t] == [b.start[0] + i] + Trav(Tail(b))[j]
  {
    TravLen(Tail(b));
    SlabsLen(b.start[0], b.count[0], Trav(Tail(b)));
    i, j := SlabsElem(b.start[0], b.count[0], Trav(Tail(b)), t);
  }

  lemma InBoxCons(i: nat, x: Coord, b: Block)
    requires |b.start| == |b.count| > 0
    requires i < b.count[0] && InBox(x, Tail(b))
    ensures InBox([b.start[0] + i] + x, b)
    ensures Sub([b.start[0] + i] + x, b.start) == [i] + Sub(x, Tail(b).start)
    ensures Linear(b.count, Sub([b.start[0] + i] + x, b.start)) == i * Prod(Tail(b).count) + Linear(Tail(b).count, Sub(x, Tail(b).start))
  {
    var c := [b.start[0] + i] + x;
    assert c[1..] == x;
    InBoxTail(c, b);
    var y := [i] + Sub(x, Tail(b).start);
    assert Sub(c, b.start) == y;
    assert y[1..] == Sub(x, Tail(b).start);
  }

  /** Every element of the traversal is a coordinate of the block, at its own position. */
  lemma {:induction false} TravIn(b: Block, t: nat)
    requires |b.start| == |b.count| && t < |Trav(b)|
    ensures InBox(Trav(b)[t], b)
    ensures t == Linear(b.count, Sub(Trav(b)[t], b.start))
    decreases |b.start|
  {
    if |b.start| > 0 {
      var i, j := TravHead(b, t);
      TravIn(Tail(b), j);
      InBoxCons(i, Trav(Tail(b))[j], b);
    }
  }

  lemma {:induction false} TravMember(b: Block, c: Coord)
    requires |b.start| == |b.count|
    ensures c in Trav(b) <==> InBox(c, b)
  {
    if InBox(c, b) { TravAt(b, c); }
    if c in Trav(b) {
      var t :| 0 <= t < |Trav(b)| && Trav(b)[t] == c;
      TravIn(b, t);
    }
  }

  lemma {:induction false} SubInBounds(b: Block, c: Coord)
    requires |b.start| == |b.count| && InBox(c, b)
    ensures InBounds(b.count, Sub(c, b.start))
    ensures Add(Sub(c, b.start), b.start) == c
  {
  }

  /** A block is traversed in strictly increasing order. */
  lemma {:induction false} TravIncreasing(b: Block)
    requires |b.start| == |b.count|
    ensures Increasing(Trav(b))
  {
    var s := Trav(b);
    forall i | 0 <= i < |s| ensures |s[i]| == |b.start| { TravIn(b, i); }
    forall i, j | 0 <= i < j < |s|
      ensures Less(s[i], s[j])
    {
      TravIn(b, i);
      TravIn(b, j);
      SubInBounds(b, s[i]);
      SubInBounds(b, s[j]);
      LinearOrder(b.count, Sub(s[i], b.start), Sub(s[j], b.start));
      LessShift(Sub(s[i], b.start), Sub(s[j], b.start), b.start);
    }
  }

  lemma {:induction false} PrependConcat(h: nat, a: seq<Coord>, b: seq<Coord>)
    ensures Prepend(h, a + b) == Prepend(h, a) + Prepend(h, b)
  {
  }

  lemma {:induction false} SlabsSplit(h: nat, n: nat, m: nat, tails: seq<Coord>)
    ensures Slabs(h, n + m, tails) == Slabs(h, n, tails) + Slabs(h + n, m, tails)
    decreases n
  {
    if n == 0 {
      assert Slabs(h, 0, tails) + Slabs(h, m, tails) == Slabs(h, m, tails);
    } else {
      SlabsSplit(h + 1, n - 1, m, tails);
      assert Slabs(h, n, tails) + Slabs(h + n, m, tails)
          == Prepend(h, tails) + (Slabs(h + 1, n - 1, tails) + Slabs(h + n, m, tails));
    }
  }

  /** Blocks a and b differ along dimension d only, where b begins at the end of a. */
  predicate Adjacent(a: Block, b: Block, d: nat)
    requires |a.start| == |a.count| == |b.start| == |b.count| && d < |a.start|
  {
    a.start[d] + a.count[d] == b.start[d] &&
    forall k :: 0 <= k < |a.start| && k != d ==> a.start[k] == b.start[k] && a.count[k] == b.count[k]
  }

  function Union(a: Block, b: Block, d: nat): (m: Block)
    requires |a.start| == |a.count| == |b.start| == |b.count| && d < |a.start|
    ensures |m.start| == |m.count| == |a.start|
  {
    Block(a.start, a.count[d := a.count[d] + b.count[d]])
  }

  lemma AdjacentTail(a: Block, b: Block, d: nat)
    requires |a.start| == |a.count| == |b.start| == |b.count| && 0 < d < |a.start| && Adjacent(a, b, d)
    ensures Adjacent(Tail(a), Tail(b), d - 1) && Tail(Union(a, b, d)) == Union(Tail(a), Tail(b), d - 1)
    ensures a.start[0] == b.start[0] && a.count[0] == b.count[0]
  {
  }

  /** Two blocks that are unit-sized before dimension d and adjacent along it are traversed one after
      the other exactly as their union is. */
  lemma {:induction false} TravMerge(a: Block, b: Block, d: nat)
    requires |a.start| == |a.count| == |b.start| == |b.count| && d < |a.start|
    requires forall k :: 0 <= k < d ==> a.count[k] == 1
    requires Adjacent(a, b, d)
    ensures Trav(Union(a, b, d)) == Trav(a) + Trav(b)
    decreases d
  {
    if d == 0 {
      assert Tail(Union(a, b, 0)) == Tail(a) == Tail(b);
      SlabsSplit(a.start[0], a.count[0], b.count[0], Trav(Tail(a)));
    } else {
      AdjacentTail(a, b, d);
      assert forall k :: 0 <= k < d - 1 ==> Tail(a).count[k] == a.count[k + 1];
      TravMerge(Tail(a), Tail(b), d - 1);
      PrependConcat(a.start[0], Trav(Tail(a)), Trav(Tail(b)));
      UnitSlab(Union(a, b, d));
      UnitSlab(a);
      UnitSlab(b);
    }
  }

  lemma UnitSlab(b: Block)
    requires |b.start| == |b.count| > 0 && b.count[0] == 1
    ensures Trav(b) == Prepend(b.start[0], Trav(Tail(b)))
  {
    assert Slabs(b.start[0] + 1, 0, Trav(Tail(b))) == [];
  }

  lemma TravAllCons(a: Block, t: seq<Block>)
    requires |a.start| == |a.count| && Shaped(t)
    ensures Shaped([a] + t) && TravAll([a] + t) == Trav(a) + TravAll(t)
  {
    var s := [a] + t;
    assert s[0] == a && s[1..] == t;
  }

  lemma {:induction false} TravAllConcat(a: seq<Block>, b: seq<Block>)
    requires Shaped(a) && Shaped(b)
    ensures Shaped(a + b) && TravAll(a + b) == TravAll(a) + TravAll(b)
    decreases |a|
  {
    if a == [] {
      assert a + b == b;
    } else {
      assert a + b == [a[0]] + (a[1..] + b);
      TravAllConcat(a[1..], b);
      TravAllCons(a[0], a[1..] + b);
    }
  }

  lemma {:induction false} TravAllMember(bs: seq<Block>, c: Coord)
    requires Shaped(bs)
    ensures c in TravAll(bs) <==> exists i :: 0 <= i < |bs| && InBox(c, bs[i])
    decreases |bs|
  {
    if bs != [] {
      TravMember(bs[0], c);
      TravAllMember(bs[1..], c);
      if c in TravAll(bs[1..]) {
        var i :| 0 <= i < |bs[1..]| && InBox(c, bs[1..][i]);
        assert InBox(c, bs[i + 1]);
      }
      if i :| 0 <= i < |bs| && InBox(c, bs[i]) {
        if i > 0 { assert bs[1..][i - 1] == bs[i]; }
      }
    }
  }

  lemma LessEqAntisym(a: Coord, b: Coord)
    requires |a| == |b| && LessEq(a, b) && LessEq(b, a)
    ensures a == b
  {
    if Less(a, b) { LessAsym(a, b); }
  }

  lemma HeadIsLeast(a: seq<Coord>, c: Coord)
    requires Increasing(a) && c in a
    ensures |c| == |a[0]| && LessEq(a[0], c)
  {
    var i :| 0 <= i < |a| && a[i] == c;
    if i > 0 { assert Less(a[0], a[i]); }
  }

  lemma HeadNotInTail(a: seq<Coord>, c: Coord)
    requires Increasing(a) && a != []
    ensures c in a[1..] <==> c in a && c != a[0]
  {
    if c in a[1..] {
      var i :| 0 <= i < |a[1..]| && a[1..][i] == c;
      assert Less(a[0], a[i + 1]);
      LessAsym(a[0], a[i + 1]);
      assert c in a && c != a[0];
    }
    if c in a && c != a[0] {
      var i :| 0 <= i < |a| && a[i] == c;
      assert a[1..][i - 1] == c;
      assert c in a[1..];
    }
  }

  /** Two strictly increasing sequences with the same elements are the same sequence. */
  lemma {:induction false} IncreasingUnique(a: seq<Coord>, b: seq<Coord>)
    requires Increasing(a) && Increasing(b)
    requires forall c :: c in a <==> c in b
    ensures a == b
    decreases |a|
  {
    assert |a| > 0 ==> a[0] in b;
    assert |b| > 0 ==> b[0] in a;
    if |a| > 0 {
      HeadIsLeast(a, b[0]);
      HeadIsLeast(b, a[0]);
      LessEqAntisym(a[0], b[0]);
      forall c
        ensures c in a[1..] <==> c in b[1..]
      {
        HeadNotInTail(a, c);
        HeadNotInTail(b, c);
      }
      IncreasingUnique(a[1..], b[1..]);
      assert a == [a[0]] + a[1..] && b == [b[0]] + b[1..];
    }
  }

  lemma {:induction false} IncreasingConcat(a: seq<Coord>, b: seq<Coord>)
    requires Increasing(a) && Increasing(b)
    requires forall x, y :: x in a && y in b ==> |x| == |y|
    ensures Increasing(a + b) <==> forall x, y :: x in a && y in b ==> |x| == |y| && Less(x, y)
  {
    hide Less;
    var s := a + b;
    if Increasing(s) {
      forall x, y | x in a && y in b
        ensures Less(x, y)
      {
        var i :| 0 <= i < |a| && a[i] == x;
        var j :| 0 <= j < |b| && b[j] == y;
        assert s[i] == x && s[|a| + j] == y;
      }
    }
    if forall x, y :: x in a && y in b ==> |x| == |y| && Less(x, y) {
      forall i, j | 0 <= i < |s| && 0 <= j < |s|
        ensures |s[i]| == |s[j]|
      {
        if a != [] && b != [] {
          assert a[0] in a && b[0] in b;
        }
      }
      forall i, j | 0 <= i < j < |s|
        ensures Less(s[i], s[j])
      {
        if i < |a| <= j { assert s[i] in a && s[j] in b; }
      }
    }
  }
}
