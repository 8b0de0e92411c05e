/** `sortoffsets`: file ranges with their memory offsets and lengths, sorted in place by file offset; bubble
    sort for fewer than sixteen, otherwise one quicksort partition and two recursive calls. */
module SortOffsets {

  /** One contiguous transfer: `len` bytes from file offset `foff` to memory address `moff`. */
  datatype Piece = Piece(foff: int, moff: int, len: nat)

  ghost predicate SortedRange(s: seq<Piece>, lo: nat, hi: nat)
  {
    hi <= |s| && forall i, j :: lo <= i < j < hi ==> s[i].foff <= s[j].foff
  }

  /** t is s with the elements of [lo, hi) permuted. */
  ghost predicate Permuted(s: seq<Piece>, t: seq<Piece>, lo: nat, hi: nat)
  {
    |s| == |t| && lo <= hi <= |s| && t[..lo] == s[..lo] && t[hi..] == s[hi..] && multiset(t[lo..hi]) == multiset(s[lo..hi])
  }

  lemma PermutedTrans(s: seq<Piece>, t: seq<Piece>, u: seq<Piece>, lo: nat, hi: nat)
    requires Permuted(s, t, lo, hi) && Permuted(t, u, lo, hi)
    ensures Permuted(s, u, lo, hi)
  {
  }

  function Swapped(s: seq<Piece>, i: nat, j: nat): (t: seq<Piece>)
    requires i < |s| && j < |s|
    ensures |t| == |s|
  {
    s[i := s[j]][j := s[i]]
  }

  lemma SwapPermutes(s: seq<Piece>, lo: nat, hi: nat, i: nat, j: nat)
    requires lo <= i < hi <= |s| && lo <= j < hi
    ensures Permuted(s, Swapped(s, i, j), lo, hi)
  {
    var t := Swapped(s, i, j);
    assert t[lo..hi] == s[lo..hi][i - lo := s[j]][j - lo := s[i]];
  }

  /** A permutation of a part is a permutation of the whole. */
  lemma Widen(s: seq<Piece>, t: seq<Piece>, lo: nat, a: nat, b: nat, hi: nat)
    requires Permuted(s, t, a, b) && lo <= a <= b <= hi <= |s|
    ensures Permuted(s, t, lo, hi)
  {
    assert s[lo..hi] == s[lo..a] + s[a..b] + s[b..hi] && t[lo..hi] == t[lo..a] + t[a..b] + t[b..hi];
    assert s[lo..a] == s[..a][lo..] && t[lo..a] == t[..a][lo..];
    assert s[b..hi] == s[b..][..hi - b] && t[b..hi] == t[b..][..hi - b];
    assert t[..lo] == t[..a][..lo] && s[..lo] == s[..a][..lo];
    assert t[hi..] == t[b..][hi - b..] && s[hi..] == s[b..][hi - b..];
  }

  lemma Member(s: seq<Piece>, t: seq<Piece>, lo: nat, hi: nat, i: nat) returns (j: nat)
    requires Permuted(s, t, lo, hi) && lo <= i < hi
    ensures lo <= j < hi && t[i] == s[j]
  {
    assert t[i] in t[lo..hi] by { assert t[lo..hi][i - lo] == t[i]; }
    assert t[i] in multiset(s[lo..hi]);
    var k :| 0 <= k < hi - lo && s[lo..hi][k] == t[i];
    j := lo + k;
  }

  // ----- inversions -----

  function Below(s: seq<Piece>, x: int): nat
    decreases |s|
  {
    if s == [] then 0 else (if s[0].foff < x then 1 else 0) + Below(s[1..], x)
  }

  /** Number of pairs that stand in the wrong order. */
  function Inversions(s: seq<Piece>): nat
    decreases |s|
  {
    if s == [] then 0 else Below(s[1..], s[0].foff) + Inversions(s[1..])
  }

  lemma {:induction false} BelowSwap(s: seq<Piece>, x: int, i: nat)
    requires i + 1 < |s|
    ensures Below(Swapped(s, i, i + 1), x) == Below(s, x)
    decreases i
  {
    var t := Swapped(s, i, i + 1);
    if i == 0 {
      assert t[1..][1..] == s[1..][1..];
    } else {
      assert t[1..] == Swapped(s[1..], i - 1, i);
      BelowSwap(s[1..], x, i - 1);
    }
  }

  /** Exchanging two neighbours in the wrong order removes exactly one inversion. */
  lemma {:induction false} SwapRemovesOne(s: seq<Piece>, i: nat)
    requires i + 1 < |s| && s[i + 1].foff < s[i].foff
    ensures Inversions(Swapped(s, i, i + 1)) + 1 == Inversions(s)
    decreases i
  {
    var t := Swapped(s, i, i + 1);
    if i == 0 {
      assert t[1..][1..] == s[1..][1..];
      assert t[1..][0] == s[0] && s[1..][0] == t[0];
    } else {
      assert t[1..] == Swapped(s[1..], i - 1, i);
      SwapRemovesOne(s[1..], i - 1);
      BelowSwap(s[1..], s[0].foff, i - 1);
    }
  }

  lemma SliceSwap(s: seq<Piece>, lo: nat, hi: nat, i: nat)
    requires lo <= i && i + 1 < hi <= |s|
    ensures Swapped(s, i, i + 1)[lo..hi] == Swapped(s[lo..hi], i - lo, i + 1 - lo)
  {
  }

  ghost predicate Steps(s: seq<Piece>, lo: nat, hi: nat)
  {
    hi <= |s| && forall t :: lo <= t && t + 1 < hi ==> s[t].foff <= s[t + 1].foff
  }

  lemma {:induction false} StepsSorted(s: seq<Piece>, lo: nat, hi: nat, i: nat, j: nat)
    requires Steps(s, lo, hi) && lo <= i <= j < hi
    ensures s[i].foff <= s[j].foff
    decreases j - i
  {
    if i < j { StepsSorted(s, lo, hi, i, j - 1); }
  }

  lemma AllStepsSorted(s: seq<Piece>, lo: nat, hi: nat)
    requires Steps(s, lo, hi)
    ensures SortedRange(s, lo, hi)
  {
    forall i, j | lo <= i < j < hi ensures s[i].foff <= s[j].foff { StepsSorted(s, lo, hi, i, j); }
  }

  method Swap(a: array<Piece>, i: nat, j: nat)
    requires i < a.Length && j < a.Length
    modifies a
    ensures a[..] == Swapped(old(a[..]), i, j)
  {
    a[i], a[j] := a[j], a[i];
  }

  lemma StepsStart(s: seq<Piece>, lo: nat, hi: nat)
    requires lo <= hi <= |s|
    ensures Steps(s, lo, if lo + 1 <= hi then lo + 1 else hi)
  {
  }

  lemma StepsMore(s: seq<Piece>, lo: nat, hi: nat, i: nat)
    requires Steps(s, lo, i + 1) && i + 1 < hi <= |s| && s[i].foff <= s[i + 1].foff
    ensures Steps(s, lo, i + 2)
  {
  }

  /** A swap of the bubble sort. */
  lemma BubbleSwap(s0: seq<Piece>, s: seq<Piece>, lo: nat, hi: nat, i: nat)
    requires lo <= i && i + 1 < hi <= |s| && Permuted(s0, s, lo, hi) && s[i + 1].foff < s[i].foff && |s0| == |s|
    requires s == s0 || Inversions(s[lo..hi]) < Inversions(s0[lo..hi])
    ensures Permuted(s0, Swapped(s, i, i + 1), lo, hi) && Inversions(Swapped(s, i, i + 1)[lo..hi]) < Inversions(s0[lo..hi])
  {
    hide Permuted, Inversions, Swapped;
    SwapPermutes(s, lo, hi, i, i + 1);
    PermutedTrans(s0, s, Swapped(s, i, i + 1), lo, hi);
    SliceSwap(s, lo, hi, i);
    SwapRemovesOne(s[lo..hi], i - lo);
  }

  /** One bubble pass. */
  method BubblePass(a: array<Piece>, lo: nat, hi: nat) returns (swapped: bool)
    requires lo <= hi <= a.Length
    modifies a
    ensures Permuted(old(a[..]), a[..], lo, hi)
    ensures swapped ==> Inversions(a[lo..hi]) < Inversions(old(a[lo..hi]))
    ensures !swapped ==> a[..] == old(a[..]) && SortedRange(a[..], lo, hi)
  {
    hide Permuted, Inversions, Swapped, Steps, SortedRange;
    swapped := false;
    var i := lo;
    ghost var s0 := a[..];
    PermutedRefl(s0, lo, hi);
    StepsStart(s0, lo, hi);
    while i + 1 < hi
      invariant lo <= i && |a[..]| == |s0| && Permuted(s0, a[..], lo, hi)
      invariant swapped ==> Inversions(a[..][lo..hi]) < Inversions(s0[lo..hi])
      invariant !swapped ==> a[..] == s0 && Steps(s0, lo, if i + 1 <= hi then i + 1 else hi)
    {
      ghost var s := a[..];
      if a[i + 1].foff < a[i].foff {
        BubbleSwap(s0, s, lo, hi, i);
        Swap(a, i, i + 1);
        swapped := true;
      } else if !swapped {
        StepsMore(s0, lo, hi, i);
      }
      i := i + 1;
    }
    if !swapped { AllStepsSorted(s0, lo, hi); }
    assert a[lo..hi] == a[..][lo..hi] && s0[lo..hi] == old(a[lo..hi]);
  }

  lemma PermutedRefl(s: seq<Piece>, lo: nat, hi: nat)
    requires lo <= hi <= |s|
    ensures Permuted(s, s, lo, hi)
  {
  }

  method BubbleSort(a: array<Piece>, lo: nat, hi: nat)
    requires lo <= hi <= a.Length
    modifies a
    ensures Permuted(old(a[..]), a[..], lo, hi) && SortedRange(a[..], lo, hi)
  {
    hide Permuted, Inversions, SortedRange;
    var j := true;
    ghost var s0 := a[..];
    PermutedRefl(s0, lo, hi);
    while j
      invariant Permuted(s0, a[..], lo, hi) && (!j ==> SortedRange(a[..], lo, hi))
      decreases Inversions(a[lo..hi]), if j then 1 else 0
    {
      ghost var s := a[..];
      j := BubblePass(a, lo, hi);
      PermutedTrans(s0, s, a[..], lo, hi);
    }
  }

  /** Everything before position p of [lo, hi) is below pivot x, everything from p on is not. */
  ghost predicate Split(s: seq<Piece>, lo: nat, p: nat, hi: nat, x: int)
  {
    lo <= p <= hi <= |s| && (forall t :: lo <= t < p ==> s[t].foff < x) && forall t :: p <= t < hi ==> s[t].foff >= x
  }

  lemma SplitPermuted(s: seq<Piece>, t: seq<Piece>, lo: nat, p: nat, hi: nat, x: int)
    requires Split(s, lo, p, hi, x) && p < hi && s[p].foff == x
    requires Permuted(s, t, lo, p) || Permuted(s, t, p + 1, hi)
    ensures Split(t, lo, p, hi, x) && t[p].foff == x
  {
    if Permuted(s, t, lo, p) {
      forall i | lo <= i < p ensures t[i].foff < x { var j := Member(s, t, lo, p, i); }
      forall i | p <= i < hi ensures t[i] == s[i] { assert t[i] == t[p..][i - p] && s[i] == s[p..][i - p]; }
    } else {
      forall i | p + 1 <= i < hi ensures t[i].foff >= x { var j := Member(s, t, p + 1, hi, i); }
      forall i | lo <= i <= p ensures t[i] == s[i] { assert t[i] == t[..p + 1][i] && s[i] == s[..p + 1][i]; }
    }
  }

  lemma JoinSorted(s: seq<Piece>, lo: nat, p: nat, hi: nat, x: int)
    requires Split(s, lo, p, hi, x) && p < hi && s[p].foff == x && SortedRange(s, lo, p) && SortedRange(s, p + 1, hi)
    ensures SortedRange(s, lo, hi)
  {
  }

  lemma SplitGrows(s: seq<Piece>, lo: nat, j: nat, i: nat, x: int)
    requires Split(s, lo, j, i, x) && i < |s|
    ensures s[i].foff >= x ==> Split(s, lo, j, i + 1, x)
    ensures s[i].foff < x ==> Split(Swapped(s, i, j), lo, j + 1, i + 1, x)
  {
  }

  lemma PivotPlaced(s: seq<Piece>, lo: nat, j: nat, hi: nat, x: int)
    requires Split(s, lo, j, hi, x) && j < hi && s[hi - 1].foff == x
    ensures Split(Swapped(s, hi - 1, j), lo, j, hi, x) && Swapped(s, hi - 1, j)[j].foff == x
  {
  }

  lemma PivotKept(s: seq<Piece>, i: nat, j: nat, p: nat)
    requires j <= i < p < |s|
    ensures Swapped(s, i, j)[p] == s[p]
  {
  }

  lemma SwapSelf(s: seq<Piece>, i: nat)
    requires i < |s|
    ensures Swapped(s, i, i) == s
  {
  }

  /** The partition: pivot from the middle to the end, smaller elements to the front, pivot between. */
  method Partition(a: array<Piece>, lo: nat, hi: nat) returns (j: nat, ghost x: int)
    requires lo < hi <= a.Length
    modifies a
    ensures lo <= j < hi && Permuted(old(a[..]), a[..], lo, hi)
    ensures Split(a[..], lo, j, hi, x) && a[..][j].foff == x
  {
    hide Permuted, Split, Swapped;
    ghost var s0 := a[..];
    var p := lo + (hi - lo) / 2;
    Swap(a, p, hi - 1);
    SwapPermutes(s0, lo, hi, p, hi - 1);
    p := hi - 1;
    x := a[..][p].foff;
    j := lo;
    var i := lo;
    NoSplit(a[..], lo, x);
    while i < hi
      invariant lo <= j <= i <= hi && j <= p == hi - 1
      invariant Permuted(s0, a[..], lo, hi) && Split(a[..], lo, j, i, x) && a[..][p].foff == x
    {
      ghost var s := a[..];
      SplitGrows(s, lo, j, i, x);
      if a[i].foff < a[p].foff {
        PivotKept(s, i, j, p);
        SwapPermutes(s, lo, hi, i, j);
        PermutedTrans(s0, s, Swapped(s, i, j), lo, hi);
        if i != j { Swap(a, i, j); } else { SwapSelf(s, i); }
        j := j + 1;
      }
      i := i + 1;
    }
    ghost var s := a[..];
    Swap(a, p, j);
    SwapPermutes(s, lo, hi, p, j);
    PermutedTrans(s0, s, a[..], lo, hi);
    PivotPlaced(s, lo, j, hi, x);
  }

  lemma NoSplit(s: seq<Piece>, lo: nat, x: int)
    requires lo <= |s|
    ensures Split(s, lo, lo, lo, x)
  {
  }

  /** Sorts [lo, hi) by file offset, moving memory offset and length along. */
  method SortRange(a: array<Piece>, lo: nat, hi: nat)
    requires lo <= hi <= a.Length
    modifies a
    ensures Permuted(old(a[..]), a[..], lo, hi) && SortedRange(a[..], lo, hi)
    decreases hi - lo
  {
    hide Permuted, SortedRange, Split;
    if hi - lo < 16 {
      BubbleSort(a, lo, hi);
      return;
    }
    ghost var s0 := a[..];
    var j; ghost var x;
    j, x := Partition(a, lo, hi);
    ghost var s1 := a[..];
    SortRange(a, lo, j);
    ghost var s2 := a[..];
    SplitPermuted(s1, s2, lo, j, hi, x);
    SortRange(a, j + 1, hi);
    SplitPermuted(s2, a[..], lo, j, hi, x);
    LeftKept(s2, a[..], lo, j, hi);
    JoinSorted(a[..], lo, j, hi, x);
    Widen(s1, s2, lo, lo, j, hi);
    Widen(s2, a[..], lo, j + 1, hi, hi);
    PermutedTrans(s0, s1, s2, lo, hi);
    PermutedTrans(s0, s2, a[..], lo, hi);
  }

  lemma LeftKept(s: seq<Piece>, t: seq<Piece>, lo: nat, j: nat, hi: nat)
    requires SortedRange(s, lo, j) && Permuted(s, t, j + 1, hi)
    ensures SortedRange(t, lo, j)
  {
    forall i | lo <= i < j ensures t[i] == s[i] { assert t[i] == t[..j + 1][i] && s[i] == s[..j + 1][i]; }
  }
}
