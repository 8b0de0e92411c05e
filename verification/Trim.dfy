/** Overlapping reads inside a group: the later range is cut back to what earlier ranges do not read, and a
    copy between the two destinations is recorded instead. */
module Trim {
  import opened Bytes
  import opened SortOffsets

  /** A recorded memory copy. */
  datatype Copy = Copy(dst: int, src: int, size: nat)

  function End(p: Piece): int { p.foff + p.len }

  function MemEnd(p: Piece): int { p.moff + p.len }

  function CutSize(x: Piece, e: int): nat
    requires e > x.foff
  {
    if x.len < e - x.foff then x.len else e - x.foff
  }

  /** The range without its part before file offset e. */
  function Cut(x: Piece, e: int): (r: Piece)
    ensures End(r) == End(x) && MemEnd(r) == MemEnd(x) && x.foff <= r.foff
    ensures r.foff == if e <= x.foff then x.foff else if e < End(x) then e else End(x)
  {
    if e > x.foff then Piece(x.foff + CutSize(x, e), x.moff + CutSize(x, e), x.len - CutSize(x, e)) else x
  }

  /** Range x after the ranges ps were processed before it. */
  function CutBy(x: Piece, ps: seq<Piece>): (r: Piece)
    ensures End(r) == End(x) && MemEnd(r) == MemEnd(x) && x.foff <= r.foff
    decreases |ps|
  {
    if ps == [] then x else Cut(CutBy(x, ps[..|ps| - 1]), End(ps[|ps| - 1]))
  }

  function Trimmed(s: seq<Piece>): (t: seq<Piece>)
    ensures |t| == |s|
  {
    seq(|s|, l requires 0 <= l < |s| => CutBy(s[l], s[..l]))
  }

  /** The copy recorded when range k is held against range l. */
  function CopyStep(s: seq<Piece>, k: nat, l: nat): (c: seq<Copy>)
    requires k < l < |s|
  {
    var x := CutBy(s[l], s[..k]);
    if End(s[k]) > x.foff then [Copy(x.moff, MemEnd(s[k]) - CutSize(x, End(s[k])), CutSize(x, End(s[k])))] else []
  }

  /** The copies recorded before k is held against l. */
  function Recorded(s: seq<Piece>, k: nat, l: nat): (c: seq<Copy>)
    requires k < l <= |s|
    decreases k, l
  {
    if l > k + 1 then Recorded(s, k, l - 1) + CopyStep(s, k, l - 1)
    else if k == 0 then []
    else Recorded(s, k - 1, |s|)
  }

  function Overlaps(s: seq<Piece>): seq<Copy>
  {
    if s == [] then [] else Recorded(s, |s| - 1, |s|)
  }

  /** How many ranges range j has been held against before k is held against l. */
  function Cutters(k: nat, l: nat, j: nat): nat
  {
    if j <= k then j else if j < l then k + 1 else k
  }

  // ----- the loops -----

  ghost predicate Progress(s: seq<Piece>, t: seq<Piece>, lo: nat, k: nat, l: nat, now: seq<Piece>)
  {
    lo + |s| <= |now| == |t| && k < l <= |s| &&
    (forall j :: 0 <= j < |s| ==> now[lo + j] == CutBy(s[j], s[..Cutters(k, l, j)])) &&
    forall i :: 0 <= i < |t| && (i < lo || lo + |s| <= i) ==> now[i] == t[i]
  }

  lemma ProgressStep(s: seq<Piece>, t: seq<Piece>, lo: nat, k: nat, l: nat, now: seq<Piece>, next: seq<Piece>)
    requires Progress(s, t, lo, k, l, now) && l < |s| && next == now[lo + l := Cut(now[lo + l], End(s[k]))]
    ensures Progress(s, t, lo, k, l + 1, next)
  {
    hide Cut, CutBy;
    CutByNext(s[l], s, k);
    forall j | 0 <= j < |s| ensures next[lo + j] == CutBy(s[j], s[..Cutters(k, l + 1, j)])
    {
      if j != l {
        assert next[lo + j] == now[lo + j];
        assert Cutters(k, l + 1, j) == Cutters(k, l, j);
      }
    }
  }

  lemma CutByNext(x: Piece, s: seq<Piece>, k: nat)
    requires k < |s|
    ensures CutBy(x, s[..k + 1]) == Cut(CutBy(x, s[..k]), End(s[k]))
  {
    hide Cut;
    assert s[..k + 1][..k] == s[..k];
  }

  lemma ProgressRow(s: seq<Piece>, t: seq<Piece>, lo: nat, k: nat, now: seq<Piece>)
    requires Progress(s, t, lo, k, |s|, now) && k + 1 < |s|
    ensures Progress(s, t, lo, k + 1, k + 2, now)
  {
    hide CutBy;
  }

  lemma ProgressStart(s: seq<Piece>, t: seq<Piece>, lo: nat)
    requires lo + |s| <= |t| && t[lo..lo + |s|] == s && s != []
    ensures Progress(s, t, lo, 0, 1, t)
  {
  }

  lemma ProgressEnd(s: seq<Piece>, t: seq<Piece>, lo: nat, now: seq<Piece>)
    requires s != [] && Progress(s, t, lo, |s| - 1, |s|, now)
    ensures now[..lo] == t[..lo] && now[lo + |s|..] == t[lo + |s|..] && now[lo..lo + |s|] == Trimmed(s)
  {
    hide CutBy;
  }

  lemma CurrentPair(s: seq<Piece>, t: seq<Piece>, lo: nat, k: nat, l: nat, now: seq<Piece>)
    requires Progress(s, t, lo, k, l, now) && l < |s|
    ensures End(now[lo + k]) == End(s[k]) && MemEnd(now[lo + k]) == MemEnd(s[k]) && now[lo + l] == CutBy(s[l], s[..k])
  {
  }

  method Adjust(a: array<Piece>, k: nat, l: nat) returns (c: seq<Copy>)
    requires k < l < a.Length
    modifies a
    ensures a[..] == old(a[..])[l := Cut(old(a[l]), End(old(a[k])))]
    ensures var (x, e) := (old(a[l]), End(old(a[k])));
            c == if e > x.foff then [Copy(x.moff, MemEnd(old(a[k])) - CutSize(x, e), CutSize(x, e))] else []
  {
    c := [];
    if a[k].foff + a[k].len > a[l].foff {
      var size := if a[l].len < a[k].foff - a[l].foff + a[k].len then a[l].len else a[k].foff - a[l].foff + a[k].len;
      c := [Copy(a[l].moff, a[k].moff - size + a[k].len, size)];
      a[l] := Piece(a[l].foff + size, a[l].moff + size, a[l].len - size);
    }
  }

  /** One round: range k is held against all later ranges. */
  method TrimRow(a: array<Piece>, lo: nat, hi: nat, k: nat, ghost s: seq<Piece>, ghost t: seq<Piece>, before: seq<Copy>) returns (overlaps: seq<Copy>)
    requires lo <= k < hi == lo + |s| <= a.Length
    requires Progress(s, t, lo, k - lo, k - lo + 1, a[..]) && before == Recorded(s, k - lo, k - lo + 1)
    modifies a
    ensures Progress(s, t, lo, k - lo, |s|, a[..]) && overlaps == Recorded(s, k - lo, |s|)
  {
    hide Progress, Cut, CutBy, CutSize;
    overlaps := before;
    var l := k + 1;
    while l < hi
      invariant k < l <= hi
      invariant Progress(s, t, lo, k - lo, l - lo, a[..]) && overlaps == Recorded(s, k - lo, l - lo)
    {
      ghost var now := a[..];
      CurrentPair(s, t, lo, k - lo, l - lo, now);
      var c := Adjust(a, k, l);
      overlaps := overlaps + c;
      ProgressStep(s, t, lo, k - lo, l - lo, now, a[..]);
      l := l + 1;
    }
  }

  /** The adjustment loops over the sorted ranges of a group. */
  method TrimOverlaps(a: array<Piece>, lo: nat, hi: nat) returns (overlaps: seq<Copy>)
    requires lo <= hi <= a.Length
    modifies a
    ensures a[..lo] == old(a[..lo]) && a[hi..] == old(a[hi..])
    ensures a[lo..hi] == Trimmed(old(a[lo..hi])) && overlaps == Overlaps(old(a[lo..hi]))
  {
    hide Progress, Cut, CutBy, CutSize, CopyStep;
    ghost var s, t := a[lo..hi], a[..];
    overlaps := [];
    if lo == hi {
      assert Trimmed(s) == [];
      return;
    }
    var k := lo;
    ProgressStart(s, t, lo);
    while k < hi
      invariant lo <= k <= hi
      invariant k < hi ==> Progress(s, t, lo, k - lo, k - lo + 1, a[..]) && overlaps == Recorded(s, k - lo, k - lo + 1)
      invariant k == hi ==> Progress(s, t, lo, |s| - 1, |s|, a[..]) && overlaps == Overlaps(s)
    {
      overlaps := TrimRow(a, lo, hi, k, s, t, overlaps);
      if k + 1 < hi { ProgressRow(s, t, lo, k - lo, a[..]); }
      k := k + 1;
    }
    ProgressEnd(s, t, lo, a[..]);
    assert a[..lo] == a[..][..lo] && a[hi..] == a[..][hi..] && a[lo..hi] == a[..][lo..hi];
  }

  // ----- what trimming does to the ranges -----

  lemma {:induction false} CutByFirst(x: Piece, s: seq<Piece>, c: nat, k: nat)
    requires k < c <= |s|
    ensures CutBy(x, s[..c]).foff >= CutBy(x, s[..k + 1]).foff >= CutBy(x, s[..k]).foff
    ensures CutBy(x, s[..c]).len > 0 ==> CutBy(x, s[..c]).foff >= End(s[k])
    decreases c
  {
    hide CutBy, Cut;
    CutByNext(x, s, c - 1);
    var y, z := CutBy(x, s[..c - 1]), CutBy(x, s[..c]);
    assert z.foff >= y.foff && z.len <= y.len && (z.len > 0 ==> z.foff >= End(s[c - 1]));
    if k < c - 1 { CutByFirst(x, s, c - 1, k); }
  }

  /** Where a range starts after being held against others: no byte is cut off that none of them reaches. */
  lemma {:induction false} CutByReach(x: Piece, s: seq<Piece>, c: nat)
    requires c <= |s| && CutBy(x, s[..c]).foff > x.foff
    ensures exists k :: 0 <= k < c && CutBy(x, s[..c]).foff <= End(s[k])
    decreases c
  {
    CutByNext(x, s, c - 1);
    if CutBy(x, s[..c]).foff <= End(s[c - 1]) {
      assert 0 <= c - 1 < c;
    } else {
      CutByReach(x, s, c - 1);
    }
  }

  /** After trimming, the non-empty ranges are increasing and pairwise disjoint, and every range ends where it
      did, in the file and in memory. */
  lemma TrimmedLegal(s: seq<Piece>)
    ensures forall l :: 0 <= l < |s| ==> End(Trimmed(s)[l]) == End(s[l]) && MemEnd(Trimmed(s)[l]) == MemEnd(s[l]) && s[l].foff <= Trimmed(s)[l].foff
    ensures forall k, l :: 0 <= k < l < |s| && Trimmed(s)[l].len > 0 ==> End(Trimmed(s)[k]) <= Trimmed(s)[l].foff
  {
    forall k, l | 0 <= k < l < |s| && Trimmed(s)[l].len > 0 ensures End(Trimmed(s)[k]) <= Trimmed(s)[l].foff
    {
      CutByFirst(s[l], s, l, k);
    }
  }

  predicate InRange(p: Piece, x: int) { p.foff <= x < End(p) }

  /** Sorted ranges keep their union, and no byte is read twice. */
  lemma {:induction false} TrimmedUnion(s: seq<Piece>, x: int, l: nat) returns (k: nat)
    requires SortedRange(s, 0, |s|) && l < |s| && InRange(s[l], x)
    ensures k <= l && InRange(Trimmed(s)[k], x)
    decreases l
  {
    hide CutBy;
    if InRange(Trimmed(s)[l], x) {
      k := l;
    } else {
      CutByReach(s[l], s, l);
      var m :| 0 <= m < l && CutBy(s[l], s[..l]).foff <= End(s[m]);
      k := TrimmedUnion(s, x, m);
    }
  }

  // ----- memory after the transfers and the copies -----

  type Store = int -> byte

  predicate Into(p: Piece, a: int) { p.moff <= a < MemEnd(p) }

  /** The byte at address a after the transfers, applied in order. */
  function Load(mem: Store, file: Store, ps: seq<Piece>, a: int): byte
    decreases |ps|
  {
    if ps == [] then mem(a)
    else
      var p := ps[|ps| - 1];
      if Into(p, a) then file(p.foff + (a - p.moff)) else Load(mem, file, ps[..|ps| - 1], a)
  }

  /** The byte at address a after the transfers and then the copies, each applied in order. */
  function CopyAll(mem: Store, file: Store, ps: seq<Piece>, cs: seq<Copy>, a: int): byte
    decreases |cs|
  {
    if cs == [] then Load(mem, file, ps, a)
    else
      var c := cs[|cs| - 1];
      CopyAll(mem, file, ps, cs[..|cs| - 1], if c.dst <= a < c.dst + c.size then c.src + (a - c.dst) else a)
  }

  lemma CopySnoc(mem: Store, file: Store, ps: seq<Piece>, cs: seq<Copy>, c: Copy, a: int)
    ensures CopyAll(mem, file, ps, cs + [c], a) ==
            CopyAll(mem, file, ps, cs, if c.dst <= a < c.dst + c.size then c.src + (a - c.dst) else a)
  {
    hide Load;
    assert (cs + [c])[..|cs|] == cs;
  }

  /** Destinations do not overlap. */
  ghost predicate Spread(s: seq<Piece>)
  {
    forall i, j, a :: 0 <= i < |s| && 0 <= j < |s| && i != j && Into(s[i], a) ==> !Into(s[j], a)
  }

  /** Every read gets the bytes of its whole original range. */
  ghost predicate Served(s: seq<Piece>, mem: Store, file: Store)
  {
    forall l, x :: 0 <= l < |s| && InRange(s[l], x) ==> CopyAll(mem, file, Trimmed(s), Overlaps(s), Address(s[l], x)) == file(x)
  }

  /** Where the byte of file offset x belongs in memory. */
  function Address(p: Piece, x: int): int { p.moff + (x - p.foff) }

  /** The guard: for every non-empty range, the first earlier range that reaches its end ends there too. */
  ghost predicate CleanEnds(s: seq<Piece>)
  {
    forall l, k :: 0 <= k < l < |s| && FirstToReach(s, k, l) ==> End(s[k]) == End(s[l])
  }

  ghost predicate FirstToReach(s: seq<Piece>, k: nat, l: nat)
    requires k < l < |s|
  {
    s[l].len > 0 && End(s[k]) >= End(s[l]) && forall m :: 0 <= m < k ==> End(s[m]) < End(s[l])
  }

  /** A range is used up exactly when an earlier one reaches its end. */
  lemma {:induction false} UsedUp(x: Piece, s: seq<Piece>, c: nat)
    requires c <= |s| && x.len > 0
    ensures CutBy(x, s[..c]).len == 0 <==> exists m :: 0 <= m < c && End(s[m]) >= End(x)
    decreases c
  {
    if c > 0 {
      CutByNext(x, s, c - 1);
      UsedUp(x, s, c - 1);
      if CutBy(x, s[..c]).len == 0 && CutBy(x, s[..c - 1]).len > 0 { assert End(s[c - 1]) >= End(x); }
    }
  }

  /** Under the guard a copy that moves anything starts, in the source, at the file offset it is for. */
  lemma CleanCopy(s: seq<Piece>, k: nat, l: nat)
    requires CleanEnds(s) && k < l < |s|
    requires var x := CutBy(s[l], s[..k]); x.len > 0 && End(s[k]) > x.foff
    ensures End(s[k]) - CutSize(CutBy(s[l], s[..k]), End(s[k])) == CutBy(s[l], s[..k]).foff
  {
    hide CutBy;
    UsedUp(s[l], s, k);
    assert End(s[k]) >= End(s[l]) ==> FirstToReach(s, k, l);
  }

  /** Source bytes of a copy that moves anything are bytes that were read directly. */
  lemma DirectSource(s: seq<Piece>, k: nat, l: nat)
    requires SortedRange(s, 0, |s|) && k < l < |s|
    requires var x := CutBy(s[l], s[..k]); x.len > 0 && End(s[k]) > x.foff
    ensures Trimmed(s)[k].foff <= End(s[k]) - CutSize(CutBy(s[l], s[..k]), End(s[k]))
  {
    hide CutBy;
    var x := CutBy(s[l], s[..k]);
    if Trimmed(s)[k].foff > s[k].foff {
      CutByReach(s[k], s, k);
      var m :| 0 <= m < k && CutBy(s[k], s[..k]).foff <= End(s[m]);
      CutByFirst(s[l], s, k, m);
    }
  }

  /** The file offset whose byte ends up where that of x belongs, after range x0 was held against c others. */
  function Source(x0: Piece, s: seq<Piece>, c: nat, x: int): int
    requires c <= |s|
    decreases c
  {
    if c == 0 then x
    else
      var y := CutBy(x0, s[..c - 1]);
      if y.foff <= x < CutBy(x0, s[..c]).foff then End(s[c - 1]) - (CutBy(x0, s[..c]).foff - y.foff) + (x - y.foff)
      else Source(x0, s, c - 1, x)
  }

  lemma {:induction false} LoadOnly(mem: Store, file: Store, ps: seq<Piece>, k: nat, a: int)
    requires k < |ps| && Into(ps[k], a) && forall j :: 0 <= j < |ps| && j != k ==> !Into(ps[j], a)
    ensures Load(mem, file, ps, a) == file(ps[k].foff + (a - ps[k].moff))
    decreases |ps|
  {
    if k < |ps| - 1 {
      assert !Into(ps[|ps| - 1], a);
      LoadOnly(mem, file, ps[..|ps| - 1], k, a);
    }
  }

  /** Bytes that were read directly are there from the start. */
  lemma LoadedDirectly(s: seq<Piece>, mem: Store, file: Store, j: nat, x: int)
    requires Spread(s) && j < |s| && InRange(s[j], x) && x >= Trimmed(s)[j].foff
    ensures Load(mem, file, Trimmed(s), Address(s[j], x)) == file(x)
  {
    hide CutBy;
    var a := Address(s[j], x);
    forall i | 0 <= i < |s| && i != j ensures !Into(Trimmed(s)[i], a)
    {
      assert Into(s[j], a);
      assert !Into(s[i], a);
    }
    LoadOnly(mem, file, Trimmed(s), j, a);
  }

  /** Delivered so far: bytes read directly, and bytes of what has been cut off. */
  ghost predicate Ready(s: seq<Piece>, k: nat, l: nat, j: nat, x: int)
    requires j < |s|
  {
    InRange(s[j], x) && (x >= Trimmed(s)[j].foff || (Cutters(k, l, j) <= |s| && x < CutBy(s[j], s[..Cutters(k, l, j)]).foff))
  }

  lemma SourceNext(x0: Piece, s: seq<Piece>, c: nat, x: int)
    requires c < |s|
    ensures var y, z := CutBy(x0, s[..c]), Cut(CutBy(x0, s[..c]), End(s[c]));
            CutBy(x0, s[..c + 1]) == z &&
            Source(x0, s, c + 1, x) == if y.foff <= x < z.foff then End(s[c]) - (z.foff - y.foff) + (x - y.foff) else Source(x0, s, c, x)
  {
    hide CutBy, Cut;
    CutByNext(x0, s, c);
  }

  lemma {:induction false} DirectSourceIs(x0: Piece, s: seq<Piece>, c: nat, x: int)
    requires c <= |s| && x >= CutBy(x0, s[..c]).foff
    ensures Source(x0, s, c, x) == x
    decreases c
  {
    if c > 0 {
      SourceNext(x0, s, c - 1, x);
      DirectSourceIs(x0, s, c - 1, x);
    }
  }

  /** One copy: it delivers the bytes it cuts off and disturbs no other. */
  lemma OneCopy(s: seq<Piece>, mem: Store, file: Store, k: nat, l: nat, j: nat, x: int)
    requires SortedRange(s, 0, |s|) && Spread(s) && k < l < |s| && j < |s| && Ready(s, k, l + 1, j, x)
    requires forall i, y {:trigger Ready(s, k, l, i, y)} :: 0 <= i < |s| && Ready(s, k, l, i, y) ==>
      CopyAll(mem, file, Trimmed(s), Recorded(s, k, l), Address(s[i], y)) == file(Source(s[i], s, Cutters(k, l, i), y))
    ensures CopyAll(mem, file, Trimmed(s), Recorded(s, k, l + 1), Address(s[j], x)) == file(Source(s[j], s, Cutters(k, l + 1, j), x))
  {
    hide CutBy, Load, Spread, SortedRange;
    var cs, z, a := Recorded(s, k, l), CutBy(s[l], s[..k]), Address(s[j], x);
    SourceNext(s[l], s, k, x);
    CutByFirst(s[l], s, l, k);
    if End(s[k]) > z.foff {
      var c := CopyStep(s, k, l)[0];
      assert Recorded(s, k, l + 1) == cs + [c];
      CopySnoc(mem, file, Trimmed(s), cs, c, a);
      if c.dst <= a < c.dst + c.size {
        InDestination(s, l, j, x, z, c.dst, c.size);
        DirectSource(s, k, l);
        var y := End(s[k]) - c.size + (x - z.foff);
        assert c.src + (a - c.dst) == Address(s[k], y);
        SourceInRange(s, k, y);
        assert Ready(s, k, l, k, y);
        DirectSourceIs(s[k], s, k, y);
      } else {
        assert Ready(s, k, l, j, x);
      }
    } else {
      assert Recorded(s, k, l + 1) == cs + [] == cs;
      assert Ready(s, k, l, j, x);
    }
  }

  lemma InDestination(s: seq<Piece>, l: nat, j: nat, x: int, z: Piece, dst: int, size: nat)
    requires Spread(s) && l < |s| && j < |s| && InRange(s[j], x)
    requires End(z) == End(s[l]) && MemEnd(z) == MemEnd(s[l]) && s[l].foff <= z.foff && dst == z.moff && size <= z.len
    requires dst <= Address(s[j], x) < dst + size
    ensures j == l && z.foff <= x < z.foff + size
  {
    assert Into(s[j], Address(s[j], x)) && Into(s[l], Address(s[j], x));
  }

  lemma SourceInRange(s: seq<Piece>, k: nat, y: int)
    requires k < |s| && Trimmed(s)[k].foff <= y < End(s[k])
    ensures InRange(s[k], y)
  {
  }

  lemma {:induction false} Delivered(s: seq<Piece>, mem: Store, file: Store, k: nat, l: nat)
    requires SortedRange(s, 0, |s|) && Spread(s) && k < l <= |s|
    ensures forall j, x {:trigger Ready(s, k, l, j, x)} :: 0 <= j < |s| && Ready(s, k, l, j, x) ==>
      CopyAll(mem, file, Trimmed(s), Recorded(s, k, l), Address(s[j], x)) == file(Source(s[j], s, Cutters(k, l, j), x))
    decreases k, l
  {
    hide CutBy, Load, Spread, SortedRange, Source, CopyAll, Ready, Recorded, Trimmed;
    if l > k + 1 {
      Delivered(s, mem, file, k, l - 1);
      forall j, x {:trigger Ready(s, k, l, j, x)} | 0 <= j < |s| && Ready(s, k, l, j, x)
        ensures CopyAll(mem, file, Trimmed(s), Recorded(s, k, l), Address(s[j], x)) == file(Source(s[j], s, Cutters(k, l, j), x))
      {
        OneCopy(s, mem, file, k, l - 1, j, x);
      }
    } else if k == 0 {
      forall j, x {:trigger Ready(s, k, l, j, x)} | 0 <= j < |s| && Ready(s, k, l, j, x)
        ensures CopyAll(mem, file, Trimmed(s), Recorded(s, k, l), Address(s[j], x)) == file(Source(s[j], s, Cutters(k, l, j), x))
      {
        BeforeCopies(s, mem, file, l, j, x);
      }
    } else {
      Delivered(s, mem, file, k - 1, |s|);
      forall j, x {:trigger Ready(s, k, l, j, x)} | 0 <= j < |s| && Ready(s, k, l, j, x)
        ensures CopyAll(mem, file, Trimmed(s), Recorded(s, k, l), Address(s[j], x)) == file(Source(s[j], s, Cutters(k, l, j), x))
      {
        RoundStarts(s, k, l, j, x);
      }
    }
  }

  lemma BeforeCopies(s: seq<Piece>, mem: Store, file: Store, l: nat, j: nat, x: int)
    requires SortedRange(s, 0, |s|) && Spread(s) && 0 < l <= |s| && l == 1 && j < |s| && Ready(s, 0, l, j, x)
    ensures CopyAll(mem, file, Trimmed(s), Recorded(s, 0, l), Address(s[j], x)) == file(Source(s[j], s, Cutters(0, l, j), x))
  {
    hide CutBy, Load, Spread, SortedRange;
    NotYetCut(s[j], s);
    LoadedDirectly(s, mem, file, j, x);
    DirectSourceIs(s[j], s, 0, x);
  }

  lemma RoundStarts(s: seq<Piece>, k: nat, l: nat, j: nat, x: int)
    requires 0 < k && l == k + 1 <= |s| && j < |s| && Ready(s, k, l, j, x)
    ensures Cutters(k, l, j) == Cutters(k - 1, |s|, j) && Ready(s, k - 1, |s|, j, x) && Recorded(s, k, l) == Recorded(s, k - 1, |s|)
  {
    hide CutBy, CopyStep;
  }

  lemma NotYetCut(x: Piece, s: seq<Piece>)
    ensures CutBy(x, s[..0]) == x
  {
  }

  /** What every read gets in the end. */
  lemma FinalContents(s: seq<Piece>, mem: Store, file: Store, j: nat, x: int)
    requires SortedRange(s, 0, |s|) && Spread(s) && j < |s| && InRange(s[j], x)
    ensures CopyAll(mem, file, Trimmed(s), Overlaps(s), Address(s[j], x)) == file(Source(s[j], s, j, x))
  {
    hide CutBy, Load, Spread, SortedRange, Source, CopyAll, Recorded;
    Delivered(s, mem, file, |s| - 1, |s|);
    assert Ready(s, |s| - 1, |s|, j, x);
  }

  lemma {:induction false} CleanSource(s: seq<Piece>, l: nat, c: nat, x: int)
    requires CleanEnds(s) && c <= l < |s| && InRange(s[l], x)
    ensures Source(s[l], s, c, x) == x
    decreases c
  {
    hide CutBy, CleanEnds;
    if c > 0 {
      SourceNext(s[l], s, c - 1, x);
      CleanSource(s, l, c - 1, x);
      var y := CutBy(s[l], s[..c - 1]);
      if y.foff <= x < CutBy(s[l], s[..c]).foff { CleanCopy(s, c - 1, l); }
    }
  }

  lemma {:induction false} LaterCutters(x0: Piece, s: seq<Piece>, k: nat, c: nat, x: int)
    requires k <= c <= |s| && x < CutBy(x0, s[..k]).foff
    ensures Source(x0, s, c, x) == Source(x0, s, k, x)
    decreases c
  {
    hide CutBy;
    if k < c {
      LaterCutters(x0, s, k, c - 1, x);
      SourceNext(x0, s, c - 1, x);
      CutGrows(x0, s, k, c - 1);
    }
  }

  lemma {:induction false} CutGrows(x0: Piece, s: seq<Piece>, k: nat, c: nat)
    requires k <= c <= |s|
    ensures CutBy(x0, s[..k]).foff <= CutBy(x0, s[..c]).foff
    decreases c
  {
    if k < c {
      CutGrows(x0, s, k, c - 1);
      CutByNext(x0, s, c - 1);
    }
  }

  /** A range whose end an earlier one passes gets, at the place where it is cut, a byte from further on. */
  lemma WrongSource(s: seq<Piece>, k: nat, l: nat) returns (x: int)
    requires k < l < |s| && FirstToReach(s, k, l) && End(s[k]) != End(s[l])
    ensures InRange(s[l], x) && Source(s[l], s, l, x) != x
  {
    hide CutBy;
    UsedUp(s[l], s, k);
    x := CutBy(s[l], s[..k]).foff;
    SourceNext(s[l], s, k, x);
    LaterCutters(s[l], s, k + 1, l, x);
  }

  lemma OneByteFile(y: int) returns (file: Store)
    ensures forall x :: file(x) == if x == y then 1 else 0
  {
    file := x => if x == y then 1 else 0;
  }

  /** Trimming and copying serve every overlapping read completely, for whatever the file and the memory hold,
      exactly under the guard. */
  lemma TrimServes(s: seq<Piece>)
    requires SortedRange(s, 0, |s|) && Spread(s)
    ensures CleanEnds(s) <==> forall mem: Store, file: Store :: Served(s, mem, file)
  {
    hide CutBy, Load, Spread, SortedRange, Source, CopyAll, Recorded, Overlaps, Trimmed;
    if CleanEnds(s) {
      forall mem: Store, file: Store ensures Served(s, mem, file)
      {
        forall l, x | 0 <= l < |s| && InRange(s[l], x)
          ensures CopyAll(mem, file, Trimmed(s), Overlaps(s), Address(s[l], x)) == file(x)
        {
          FinalContents(s, mem, file, l, x);
          CleanSource(s, l, l, x);
        }
      }
    } else {
      var l, k :| 0 <= k < l < |s| && FirstToReach(s, k, l) && End(s[k]) != End(s[l]);
      var x := WrongSource(s, k, l);
      var file := OneByteFile(x);
      FinalContents(s, file, file, l, x);
      assert CopyAll(file, file, Trimmed(s), Overlaps(s), Address(s[l], x)) == 0 != file(x);
      assert InRange(s[l], x) && !Served(s, file, file);
    }
  }

  /** In particular it does when the ends of the sorted ranges do not decrease. */
  lemma MonotoneEndsServe(s: seq<Piece>, mem: Store, file: Store)
    requires SortedRange(s, 0, |s|) && Spread(s) && forall k, l :: 0 <= k < l < |s| ==> End(s[k]) <= End(s[l])
    ensures Served(s, mem, file)
  {
    assert CleanEnds(s);
    TrimServes(s);
  }

  /** A range strictly inside an earlier one gets wrong bytes. */
  lemma InnerRangeIsNotServed()
    ensures var s := [Piece(0, 0, 4), Piece(1, 4, 2)];
            SortedRange(s, 0, 2) && Spread(s) && !CleanEnds(s) &&
            Overlaps(s) == [Copy(4, 2, 2)] && exists mem: Store, file: Store :: !Served(s, mem, file)
  {
    var s := [Piece(0, 0, 4), Piece(1, 4, 2)];
    assert FirstToReach(s, 0, 1);
    assert s[..0] == [] && CutBy(s[1], s[..0]) == s[1];
    assert CopyStep(s, 0, 1) == [Copy(4, 2, 2)];
    assert Recorded(s, 0, 1) == [];
    assert Recorded(s, 0, 2) == [Copy(4, 2, 2)];
    TrimServes(s);
  }

  // ----- ranges that do not overlap -----

  lemma {:induction false} Untouched(x: Piece, s: seq<Piece>, c: nat)
    requires c <= |s| && forall k :: 0 <= k < c ==> End(s[k]) <= x.foff
    ensures CutBy(x, s[..c]) == x
    decreases c
  {
    if c > 0 {
      CutByNext(x, s, c - 1);
      Untouched(x, s, c - 1);
    }
  }

  /** Sorted ranges that do not overlap are left alone and no copy is recorded. */
  lemma NothingToTrim(s: seq<Piece>)
    requires forall k, l :: 0 <= k < l < |s| ==> End(s[k]) <= s[l].foff
    ensures Trimmed(s) == s && Overlaps(s) == []
  {
    forall l | 0 <= l < |s| ensures Trimmed(s)[l] == s[l] { Untouched(s[l], s, l); }
    if s != [] { NoCopies(s, |s| - 1, |s|); }
  }

  lemma {:induction false} NoCopies(s: seq<Piece>, k: nat, l: nat)
    requires k < l <= |s| && forall i, j :: 0 <= i < j < |s| ==> End(s[i]) <= s[j].foff
    ensures Recorded(s, k, l) == []
    decreases k, l
  {
    if l > k + 1 {
      NoCopies(s, k, l - 1);
      Untouched(s[l - 1], s, k);
    } else if k > 0 {
      NoCopies(s, k - 1, |s|);
    }
  }
}
