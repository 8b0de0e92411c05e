/** The row break-down of the selection constructor: one block of an interleaving group becomes its rows. */
module RowBreakDown {
  import opened Grid
  import opened Rows
  import opened BlockSort
  import opened SlotMerge
  import opened SlotFill

  /** Start of the row of b at counter c. */
  function RowStart(b: Block, c: Coord): (x: Coord)
    requires |b.start| == |b.count| > 0 && |c| == |b.start| - 1
    ensures |x| == |b.start|
  {
    RowAt(b, c).start
  }

  lemma RowStartAt(b: Block, c: Coord, k: nat)
    requires |b.start| == |b.count| > 0 && |c| == |b.start| - 1 && k < |b.start|
    ensures RowStart(b, c)[k] == if k < |c| then b.start[k] + c[k] else b.start[k]
  {
  }

  lemma RowStartSet(b: Block, c: Coord, k: nat, v: nat)
    requires |b.start| == |b.count| > 0 && |c| == |b.start| - 1 && k < |c|
    ensures RowStart(b, c[k := v]) == RowStart(b, c)[k := b.start[k] + v]
  {
  }

  lemma LinearAtLeast(dims: Coord, c: Coord)
    requires |dims| == |c| > 0 && c[0] >= dims[0]
    ensures Linear(dims, c) >= Prod(dims)
  {
    MulMono(dims[0], c[0], Prod(dims[1..]));
  }

  /** The lowest dimension along which x has not reached the end, or the rank. */
  method FirstShort(x: Coord, end: Coord) returns (l: nat)
    requires |x| == |end|
    ensures l <= |x| && (l < |x| ==> x[l] < end[l]) && forall i :: 0 <= i < l ==> x[i] >= end[i]
  {
    l := 0;
    while l < |x|
      invariant l <= |x| && forall i :: 0 <= i < l ==> x[i] >= end[i]
    {
      if x[l] < end[l] { break; }
      l := l + 1;
    }
  }

  /** A counter whose digits are all in range, except that digit k may have reached its radix. */
  ghost predicate Carrying(dims: Coord, c: Coord, k: nat)
  {
    |c| == |dims| && k < |c| && c[k] <= dims[k] && forall i :: 0 <= i < |c| && i != k ==> c[i] < dims[i]
  }

  /** Moves a row start to the next row: increment the last leading dimension and carry to the left. */
  method NextRow(n: nat, b: Cell, x: Coord, ghost ctr: Coord) returns (x': Coord, ghost ctr': Coord)
    requires n > 1 && CellOk(true, n, b)
    requires var bl := AsBlock(true, n, b);
             InBounds(Front(bl.count), ctr) && !AtLast(Front(bl.count), ctr) && x == RowStart(bl, ctr)
    ensures var bl := AsBlock(true, n, b);
            InBounds(Front(bl.count), ctr') && x' == RowStart(bl, ctr') &&
            Linear(Front(bl.count), ctr') == Linear(Front(bl.count), ctr) + 1
  {
    hide RowStart, RowAt, Linear, Prod, AtLast;
    ghost var bl := AsBlock(true, n, b);
    ghost var dims := Front(bl.count);
    RowStartAt(bl, ctr, n - 2);
    RowStartSet(bl, ctr, n - 2, ctr[n - 2] + 1);
    Bump(dims, ctr);
    ctr' := ctr[n - 2 := ctr[n - 2] + 1];
    x' := x[n - 2 := x[n - 2] + 1];
    var k := n - 2;
    while k > 0
      invariant k <= n - 2 && Carrying(dims, ctr', k)
      invariant |x'| == n && x' == RowStart(bl, ctr')
      invariant Linear(dims, ctr') == Linear(dims, ctr) + 1
    {
      RowStartAt(bl, ctr', k);
      RowStartAt(bl, ctr', k - 1);
      if x'[k] > b.ext[k] {
        Carry(dims, ctr', k);
        RowStartSet(bl, ctr', k, 0);
        RowStartSet(bl, ctr'[k := 0], k - 1, ctr'[k - 1] + 1);
        ctr' := ctr'[k := 0][k - 1 := ctr'[k - 1] + 1];
        x' := x'[k := b.start[k]][k - 1 := x'[k - 1] + 1];
      } else {
        break;
      }
      k := k - 1;
    }
    LinearBound(dims, ctr);
    LastPosition(dims, ctr);
    if ctr'[0] >= dims[0] { LinearAtLeast(dims, ctr'); }
  }

  /** The first `done` rows of b were written through the slots from index `from` on. */
  ghost predicate RowsOut(n: nat, bl: Block, s0: Slots, s: Slots, from: nat, done: nat)
    requires n > 0 && WF(n, bl)
  {
    SlotsOk(n, s0) && done <= |RowsOf(bl)| && from + done <= |s0.refs| && AllRanked(n, CellsOf(RowsOf(bl)[..done])) &&
    s == Store(n, s0, from, CellsOf(RowsOf(bl)[..done]))
  }

  lemma RowsOutStep(n: nat, bl: Block, s0: Slots, was: Slots, from: nat, done: nat, x: Cell)
    requires n > 0 && WF(n, bl) && RowsOut(n, bl, s0, was, from, done) && from + done < |s0.refs|
    requires done < |RowsOf(bl)| && x == Cell(RowsOf(bl)[done].start, RowsOf(bl)[done].count) && Ranked(n, x)
    ensures RowsOut(n, bl, s0, was.(rows := was.rows[was.refs[from + done] := x]), from, done + 1)
  {
    hide Store, RowsOf;
    var rs := RowsOf(bl);
    assert CellsOf(rs[..done + 1]) == CellsOf(rs[..done]) + [x];
    StoreSnoc(n, s0, from, CellsOf(rs[..done]), x);
  }

  lemma RowsOutStart(n: nat, bl: Block, s: Slots, from: nat)
    requires n > 0 && WF(n, bl) && SlotsOk(n, s) && from <= |s.refs|
    ensures RowsOut(n, bl, s, s, from, 0)
  {
    assert CellsOf(RowsOf(bl)[..0]) == [];
  }

  lemma RowsOutAll(n: nat, bl: Block, s0: Slots, s: Slots, from: nat)
    requires n > 0 && WF(n, bl) && RowsOut(n, bl, s0, s, from, |RowsOf(bl)|)
    ensures SlotsOk(n, s0) && AllRanked(n, CellsOf(RowsOf(bl))) && from + |RowsOf(bl)| <= |s0.refs| && s == Store(n, s0, from, CellsOf(RowsOf(bl)))
  {
    hide Store;
    assert RowsOf(bl)[..|RowsOf(bl)|] == RowsOf(bl);
  }

  lemma StartCounter(n: nat, bl: Block)
    requires n > 0 && WF(n, bl)
    ensures var z := seq(n - 1, i => 0);
            InBounds(Front(bl.count), z) && Linear(Front(bl.count), z) == 0 && RowStart(bl, z) == bl.start
  {
    var z: Coord := seq(n - 1, i => 0);
    LinearZero(Front(bl.count), z);
    assert RowStart(bl, z) == bl.start;
  }

  lemma {:induction false} LinearZero(dims: Coord, c: Coord)
    requires |dims| == |c| && forall i :: 0 <= i < |c| ==> c[i] == 0
    ensures Linear(dims, c) == 0
    decreases |c|
  {
    if c != [] { LinearZero(dims[1..], c[1..]); }
  }

  /** Whether the row at x is the last one, decided by the lowest dimension that is short of the end. */
  lemma ShortMeansMore(n: nat, b: Cell, x: Coord, ctr: Coord, l: nat)
    requires n > 0 && CellOk(true, n, b) && |ctr| == n - 1
    requires var bl := AsBlock(true, n, b); InBounds(Front(bl.count), ctr) && x == RowStart(bl, ctr)
    requires l <= n && (l < n ==> x[l] < b.ext[l]) && forall i :: 0 <= i < l ==> x[i] >= b.ext[i]
    ensures l < n - 1 <==> !AtLast(Front(AsBlock(true, n, b).count), ctr)
  {
    var bl := AsBlock(true, n, b);
    var dims := Front(bl.count);
    forall i | 0 <= i < n - 1 ensures x[i] >= b.ext[i] <==> ctr[i] + 1 >= dims[i]
    {
      RowStartAt(bl, ctr, i);
    }
    if l < n - 1 { assert ctr[l] + 1 < dims[l]; }
  }

  /** Records the row at x, the next one of the block. */
  method PutRow(n: nat, ghost bl: Block, ghost s0: Slots, rows: array<Cell>, refs: array<int>, ghost from: nat, at: nat, x: Coord, cnt: Coord, ghost ctr: Coord)
    requires n > 0 && WF(n, bl) && from <= at < refs.Length && RowsOut(n, bl, s0, Slots(rows[..], refs[..]), from, at - from)
    requires InBounds(Front(bl.count), ctr) && Linear(Front(bl.count), ctr) == at - from
    requires x == RowStart(bl, ctr) && cnt == Ones(n - 1) + [bl.count[n - 1]]
    modifies rows
    ensures RowsOut(n, bl, s0, Slots(rows[..], refs[..]), from, at + 1 - from)
    ensures 0 <= refs[at] < rows.Length && rows[refs[at]] == Cell(x, cnt)
  {
    hide Store, RowsOf;
    ghost var was := Slots(rows[..], refs[..]);
    RowPosition(bl, ctr);
    assert RowAt(bl, ctr) == Block(x, cnt);
    RowsOutStep(n, bl, s0, was, from, at - from, Cell(x, cnt));
    assert was.refs[at] == refs[at];
    rows[refs[at]] := Cell(x, cnt);
    assert Slots(rows[..], refs[..]) == was.(rows := was.rows[was.refs[at] := Cell(x, cnt)]);
  }

  /** The row at counter ctr has been written, through slot to - 1; l tells whether it is the last one. */
  ghost predicate AtRow(n: nat, b: Cell, s0: Slots, s: Slots, from: nat, to: nat, ctr: Coord, l: nat)
    requires n > 0 && CellOk(true, n, b)
  {
    var bl := AsBlock(true, n, b);
    from < to <= |s.refs| && InBounds(Front(bl.count), ctr) && Linear(Front(bl.count), ctr) + 1 == to - from <= |RowsOf(bl)| &&
    0 <= s.refs[to - 1] < |s.rows| && s.rows[s.refs[to - 1]] == Cell(RowStart(bl, ctr), Ones(n - 1) + [bl.count[n - 1]]) &&
    (l < n - 1 <==> !AtLast(Front(bl.count), ctr)) && RowsOut(n, bl, s0, s, from, to - from)
  }

  method FirstRow(n: nat, b: Cell, rows: array<Cell>, refs: array<int>, from: nat, ghost s0: Slots) returns (l: nat, ghost ctr: Coord)
    requires n > 0 && CellOk(true, n, b) && s0 == Slots(rows[..], refs[..]) && SlotsOk(n, s0)
    requires from + Prod(Front(AsBlock(true, n, b).count)) <= refs.Length
    modifies rows
    ensures AtRow(n, b, s0, Slots(rows[..], refs[..]), from, from + 1, ctr, l)
  {
    hide Store, RowsOf, RowsOut, SlotsOk;
    ghost var bl := AsBlock(true, n, b);
    RowCount(bl);
    StartCounter(n, bl);
    ctr := seq(n - 1, i => 0);
    RowPosition(bl, ctr);
    RowsOutStart(n, bl, s0, from);
    var cnt := Ones(n - 1) + [b.ext[n - 1] + 1 - b.start[n - 1]];
    PutRow(n, bl, s0, rows, refs, from, from, b.start, cnt, ctr);
    l := FirstShort(b.start, b.ext);
    ShortMeansMore(n, b, b.start, ctr, l);
  }

  /** Writes the next row, made from the one that the slot before holds. */
  method NextSlot(n: nat, b: Cell, rows: array<Cell>, refs: array<int>, ghost from: nat, to: nat, l: nat, ghost ctr: Coord, ghost s0: Slots)
      returns (l': nat, ghost ctr': Coord)
    requires n > 0 && CellOk(true, n, b) && l < n - 1 && AtRow(n, b, s0, Slots(rows[..], refs[..]), from, to, ctr, l)
    requires from + Prod(Front(AsBlock(true, n, b).count)) <= refs.Length
    modifies rows
    ensures AtRow(n, b, s0, Slots(rows[..], refs[..]), from, to + 1, ctr', l')
  {
    hide Store, RowsOf, RowsOut, SlotsOk, AtLast, Linear, Prod;
    ghost var bl := AsBlock(true, n, b);
    RowCount(bl);
    var x;
    var row := rows[refs[to - 1]];
    x, ctr' := NextRow(n, b, row.start, ctr);
    RowPosition(bl, ctr');
    PutRow(n, bl, s0, rows, refs, from, to, x, row.ext, ctr');
    l' := FirstShort(x, b.ext);
    ShortMeansMore(n, b, x, ctr', l');
  }

  /** Writes the rows of one span through the slots from index `from` on, each from the row written before. */
  method BreakDownSpan(n: nat, b: Cell, rows: array<Cell>, refs: array<int>, from: nat) returns (to: nat)
    requires n > 0 && CellOk(true, n, b) && SlotsOk(n, Slots(rows[..], refs[..]))
    requires from + Prod(Front(AsBlock(true, n, b).count)) <= refs.Length
    modifies rows
    ensures var bs := RowsOf(AsBlock(true, n, b));
            to == from + |bs| <= refs.Length && AllRanked(n, CellsOf(bs)) &&
            Slots(rows[..], refs[..]) == Store(n, Slots(old(rows[..]), refs[..]), from, CellsOf(bs))
  {
    hide Store, RowsOf, SlotsOk, AtRow;
    ghost var s0 := Slots(rows[..], refs[..]);
    var l: nat;
    ghost var ctr: Coord;
    l, ctr := FirstRow(n, b, rows, refs, from, s0);
    to := from + 1;
    RowBounds(n, b, s0, Slots(rows[..], refs[..]), from, to, ctr, l);
    while l < n - 1
      invariant AtRow(n, b, s0, Slots(rows[..], refs[..]), from, to, ctr, l) && to <= from + |RowsOf(AsBlock(true, n, b))|
      decreases from + |RowsOf(AsBlock(true, n, b))| - to
    {
      l, ctr := NextSlot(n, b, rows, refs, from, to, l, ctr, s0);
      to := to + 1;
      RowBounds(n, b, s0, Slots(rows[..], refs[..]), from, to, ctr, l);
    }
    RowsEnd(n, b, s0, Slots(rows[..], refs[..]), from, to, ctr, l);
  }

  lemma RowBounds(n: nat, b: Cell, s0: Slots, s: Slots, from: nat, to: nat, ctr: Coord, l: nat)
    requires n > 0 && CellOk(true, n, b) && AtRow(n, b, s0, s, from, to, ctr, l)
    ensures from < to <= from + |RowsOf(AsBlock(true, n, b))|
  {
    hide RowsOf, RowsOut, RowStart, AtLast, Linear;
  }

  lemma RowsEnd(n: nat, b: Cell, s0: Slots, s: Slots, from: nat, to: nat, ctr: Coord, l: nat)
    requires n > 0 && CellOk(true, n, b) && AtRow(n, b, s0, s, from, to, ctr, l) && l >= n - 1
    ensures var bs := RowsOf(AsBlock(true, n, b));
            to == from + |bs| <= |s0.refs| && SlotsOk(n, s0) && AllRanked(n, CellsOf(bs)) && s == Store(n, s0, from, CellsOf(bs))
  {
    hide RowsOf, RowsOut, RowStart, Store, SlotsOk, AtLast, Linear, Prod, AllRanked;
    var bl := AsBlock(true, n, b);
    RowCount(bl);
    LastPosition(Front(bl.count), ctr);
    RowsOutAll(n, bl, s0, s, from);
  }
}
