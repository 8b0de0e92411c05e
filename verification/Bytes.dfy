/** Little-endian words in byte buffers: the 32- and 64-bit fields of a metadata entry. */
module Bytes {
  import opened Grid

  newtype byte = x: int | 0 <= x < 256

  const TWO31: int := 0x8000_0000
  const TWO32: int := 0x1_0000_0000
  const TWO63: int := 0x8000_0000_0000_0000
  const TWO64: int := 0x1_0000_0000_0000_0000

  function Pow256(n: nat): nat
  {
    if n == 0 then 1 else 256 * Pow256(n - 1)
  }

  /** The n low-order bytes of x, least significant first. */
  function LittleEndian(n: nat, x: nat): (r: seq<byte>)
    ensures |r| == n
    decreases n
  {
    if n == 0 then [] else [(x % 256) as byte] + LittleEndian(n - 1, x / 256)
  }

  function Unsigned(bs: seq<byte>): nat
    decreases |bs|
  {
    if bs == [] then 0 else bs[0] as nat + 256 * Unsigned(bs[1..])
  }

  lemma {:induction false} LittleEndianUnsigned(n: nat, x: nat)
    requires x < Pow256(n)
    ensures Unsigned(LittleEndian(n, x)) == x
    decreases n
  {
    if n > 0 {
      assert x / 256 < Pow256(n - 1);
      LittleEndianUnsigned(n - 1, x / 256);
      assert LittleEndian(n, x)[1..] == LittleEndian(n - 1, x / 256);
    }
  }

  /** Byte k has the weight 256 to the k. */
  lemma {:induction false} LittleEndianAt(n: nat, x: nat, k: nat)
    requires k < n
    ensures Pow256(k) > 0 && LittleEndian(n, x)[k] as int == x / Pow256(k) % 256
    decreases n
  {
    PowPositive(k);
    if k > 0 {
      LittleEndianAt(n - 1, x / 256, k - 1);
      DivDiv(x, Pow256(k - 1));
    }
  }

  lemma {:induction false} PowPositive(k: nat)
    ensures Pow256(k) > 0
    decreases k
  {
    if k > 0 { PowPositive(k - 1); }
  }

  lemma DivDiv(x: nat, p: nat)
    requires p > 0
    ensures x / 256 / p == x / (256 * p)
  {
    var q, r := x / 256 / p, x / 256 % p;
    assert x / 256 == q * p + r;
    assert x == 256 * (q * p + r) + x % 256;
    DivIs(x, 256 * p, q, 256 * r + x % 256);
  }

  lemma DivIs(x: nat, d: nat, q: nat, r: nat)
    requires d > 0 && x == q * d + r && r < d
    ensures x / d == q
  {
    QuotientUnique(d, x / d, x % d, q, r);
  }

  lemma QuotientUnique(d: nat, a: nat, s: nat, q: nat, r: nat)
    requires s < d && r < d && a * d + s == q * d + r
    ensures a == q
  {
    if a < q { MulGap(a, q, d, s, r); }
    if q < a { MulGap(q, a, d, r, s); }
  }

  /** Words are stored with the byte of least weight first, negative ones as two's complements. */
  lemma WordBytes(x: int, k: nat)
    requires Fits64(x) && k < 8
    ensures Pow256(k) > 0 && I64(x)[k] as int == (if x < 0 then x + TWO64 else x) / Pow256(k) % 256
  {
    LittleEndianAt(8, if x < 0 then x + TWO64 else x, k);
  }

  lemma HalfBytes(x: int, k: nat)
    requires Fits32(x) && k < 4
    ensures Pow256(k) > 0 && I32(x)[k] as int == (if x < 0 then x + TWO32 else x) / Pow256(k) % 256
  {
    LittleEndianAt(4, if x < 0 then x + TWO32 else x, k);
  }

  lemma {:induction false} UnsignedBound(bs: seq<byte>)
    ensures Unsigned(bs) < Pow256(|bs|)
    decreases |bs|
  {
    if bs != [] { UnsignedBound(bs[1..]); }
  }

  lemma Widths()
    ensures Pow256(4) == TWO32 && Pow256(8) == TWO64
  {
    assert Pow256(1) == 256 && Pow256(2) == 65536 && Pow256(3) == 0x100_0000 && Pow256(4) == TWO32;
    assert Pow256(5) == 256 * TWO32 && Pow256(6) == 65536 * TWO32 && Pow256(7) == 0x100_0000 * TWO32;
  }

  predicate Fits32(x: int) { -TWO31 <= x < TWO31 }

  predicate Fits64(x: int) { -TWO63 <= x < TWO63 }

  function I32(x: int): (r: seq<byte>)
    requires Fits32(x)
    ensures |r| == 4
  {
    LittleEndian(4, if x < 0 then x + TWO32 else x)
  }

  function I64(x: int): (r: seq<byte>)
    requires Fits64(x)
    ensures |r| == 8
  {
    LittleEndian(8, if x < 0 then x + TWO64 else x)
  }

  function Get32(buf: seq<byte>, p: nat): (x: int)
    requires p + 4 <= |buf|
  {
    var u := Unsigned(buf[p..p + 4]);
    if u < TWO31 then u else u - TWO32
  }

  function Get64(buf: seq<byte>, p: nat): (x: int)
    requires p + 8 <= |buf|
  {
    var u := Unsigned(buf[p..p + 8]);
    if u < TWO63 then u else u - TWO64
  }

  /** The bytes bs stand in the buffer at position p. */
  ghost predicate At(buf: seq<byte>, p: nat, bs: seq<byte>)
  {
    p + |bs| <= |buf| && buf[p..p + |bs|] == bs
  }

  lemma AtSplit(buf: seq<byte>, p: nat, a: seq<byte>, b: seq<byte>)
    ensures At(buf, p, a + b) <==> At(buf, p, a) && At(buf, p + |a|, b)
  {
    if At(buf, p, a + b) {
      assert buf[p..p + |a|] == (a + b)[..|a|];
      assert buf[p + |a|..p + |a| + |b|] == (a + b)[|a|..];
    }
    if At(buf, p, a) && At(buf, p + |a|, b) {
      assert buf[p..p + |a| + |b|] == buf[p..p + |a|] + buf[p + |a|..p + |a| + |b|];
    }
  }

  lemma AtConcat(pre: seq<byte>, bs: seq<byte>, post: seq<byte>)
    ensures At(pre + bs + post, |pre|, bs)
  {
  }

  lemma Read32(buf: seq<byte>, p: nat, x: int)
    requires Fits32(x) && At(buf, p, I32(x))
    ensures Get32(buf, p) == x
  {
    Widths();
    LittleEndianUnsigned(4, if x < 0 then x + TWO32 else x);
  }

  lemma Read64(buf: seq<byte>, p: nat, x: int)
    requires Fits64(x) && At(buf, p, I64(x))
    ensures Get64(buf, p) == x
  {
    Widths();
    LittleEndianUnsigned(8, if x < 0 then x + TWO64 else x);
  }

  // ----- arrays of 64-bit words -----

  predicate AllFit(ws: seq<int>) { forall i :: 0 <= i < |ws| ==> Fits64(ws[i]) }

  function Words(ws: seq<int>): (r: seq<byte>)
    requires AllFit(ws)
    ensures |r| == 8 * |ws|
    decreases |ws|
  {
    if ws == [] then [] else I64(ws[0]) + Words(ws[1..])
  }

  /** n consecutive words from position p on. */
  function GetWords(buf: seq<byte>, p: nat, n: nat): (ws: seq<int>)
    requires p + 8 * n <= |buf|
    ensures |ws| == n
  {
    seq(n, i requires 0 <= i < n => Get64(buf, p + 8 * i))
  }

  lemma GetWordsCons(buf: seq<byte>, p: nat, n: nat)
    requires p + 8 * n + 8 <= |buf|
    ensures GetWords(buf, p, n + 1) == [Get64(buf, p)] + GetWords(buf, p + 8, n)
  {
    var r, t := GetWords(buf, p, n + 1), GetWords(buf, p + 8, n);
    forall i | 0 < i < n + 1 ensures r[i] == t[i - 1]
    {
      assert p + 8 * i == p + 8 + 8 * (i - 1);
    }
  }

  lemma WordsCons(x: int, ws: seq<int>)
    requires Fits64(x) && AllFit(ws)
    ensures AllFit([x] + ws) && Words([x] + ws) == I64(x) + Words(ws)
  {
    assert ([x] + ws)[1..] == ws;
  }

  lemma {:induction false} ReadWords(buf: seq<byte>, p: nat, ws: seq<int>)
    requires AllFit(ws) && At(buf, p, Words(ws))
    ensures GetWords(buf, p, |ws|) == ws
    decreases |ws|
  {
    if ws != [] {
      var x, t := ws[0], ws[1..];
      assert ws == [x] + t;
      WordsCons(x, t);
      AtSplit(buf, p, I64(x), Words(t));
      Read64(buf, p, x);
      ReadWords(buf, p + 8, t);
      GetWordsCons(buf, p, |t|);
    }
  }

  lemma {:induction false} WordsConcat(a: seq<int>, b: seq<int>)
    requires AllFit(a) && AllFit(b)
    ensures AllFit(a + b) && Words(a + b) == Words(a) + Words(b)
    decreases |a|
  {
    if a == [] {
      assert a + b == b && Words(a) == [];
    } else {
      var x, t := a[0], a[1..];
      assert a == [x] + t && a + b == [x] + (t + b);
      WordsConcat(t, b);
      WordsCons(x, t);
      WordsCons(x, t + b);
      ConcatAssoc(I64(x), Words(t), Words(b));
    }
  }
}
