/** Metadata datasets: a table of section ends followed by one section per process, and their loading, all at
    once or in parts that fit a buffer. */
module Sections {
  import opened Grid
  import opened Bytes
  import opened MetaCodec
  import opened EntryCodec
  import opened Dedup
  import opened Stream
  import opened IndexList
  import opened IndexSearch

  /** What a process contributes: its queue and the writes it records. */
  datatype Sec = Sec(q: Queue, writes: seq<Write>)

  ghost predicate SecOk(cfg: bool, share: bool, s: Sec) { Stored(cfg, share, s.q, s.writes) }

  ghost predicate SecsOk(cfg: bool, share: bool, secs: seq<Sec>) { forall i :: 0 <= i < |secs| ==> SecOk(cfg, share, secs[i]) }

  lemma SecFits(cfg: bool, share: bool, s: Sec)
    requires SecOk(cfg, share, s)
    ensures |s.q.reqs| == |s.writes| && (forall i :: 0 <= i < |s.q.reqs| ==> ReqFits(s.q.reqs[i])) && |Section(s.q.reqs)| == s.q.mdsize
  {
    hide Stored;
    StoredSection(cfg, share, s.q, s.writes);
  }

  function SecBytes(cfg: bool, share: bool, s: Sec): (b: seq<byte>)
    requires SecOk(cfg, share, s)
    ensures |b| == s.q.mdsize
  {
    SecFits(cfg, share, s);
    Section(s.q.reqs)
  }

  function Concat(cfg: bool, share: bool, secs: seq<Sec>): (b: seq<byte>)
    requires SecsOk(cfg, share, secs)
    decreases |secs|
  {
    if secs == [] then [] else SecBytes(cfg, share, secs[0]) + Concat(cfg, share, secs[1..])
  }

  function TotalSize(secs: seq<Sec>): nat
    decreases |secs|
  {
    if secs == [] then 0 else secs[0].q.mdsize + TotalSize(secs[1..])
  }

  lemma {:induction false} ConcatLen(cfg: bool, share: bool, secs: seq<Sec>)
    requires SecsOk(cfg, share, secs)
    ensures |Concat(cfg, share, secs)| == TotalSize(secs)
    decreases |secs|
  {
    hide SecOk;
    if secs != [] { ConcatLen(cfg, share, secs[1..]); }
  }

  // ----- the table -----

  function TableSize(n: nat): nat { 8 * (n + 1) }

  /** Where section r starts in the dataset. */
  function StartOf(secs: seq<Sec>, r: nat): nat
    requires r <= |secs|
  {
    TableSize(|secs|) + TotalSize(secs[..r])
  }

  /** Number of sections, then the end of every section. */
  function Table(secs: seq<Sec>): (t: seq<int>)
    ensures |t| == |secs| + 1
  {
    seq(|secs| + 1, i requires 0 <= i <= |secs| => if i == 0 then |secs| else StartOf(secs, i))
  }

  lemma {:induction false} TotalSnoc(secs: seq<Sec>, r: nat)
    requires r < |secs|
    ensures TotalSize(secs[..r + 1]) == TotalSize(secs[..r]) + secs[r].q.mdsize
    decreases r
  {
    if r == 0 {
      assert secs[..1][1..] == [] && secs[..0] == [];
    } else {
      TotalSnoc(secs[1..], r - 1);
      assert secs[..r + 1][1..] == secs[1..][..r] && secs[..r][1..] == secs[1..][..r - 1];
    }
  }

  /** The table as the first process computes it: the gathered sizes, its own including the table, are summed
      in place; the starts go out to the processes before the first word becomes the number of sections. */
  method BuildTable(sizes: seq<nat>, ghost secs: seq<Sec>) returns (mdoffs: array<int>, starts: seq<int>, total: int)
    requires |sizes| == |secs| > 0 && forall r :: 0 <= r < |secs| ==> sizes[r] == secs[r].q.mdsize
    ensures fresh(mdoffs) && mdoffs[..] == Table(secs) && total == StartOf(secs, |secs|)
    ensures |starts| == |secs| && forall r :: 0 <= r < |secs| ==> starts[r] == if r == 0 then 0 else StartOf(secs, r)
    ensures Summed(sizes, mdoffs[..])
  {
    var np := |sizes|;
    mdoffs := new int[np + 1];
    var len := 8 * (np + 1);
    mdoffs[0] := 0;
    var g := 0;
    while g < np
      invariant 0 <= g <= np && mdoffs[0] == 0
      invariant forall r :: 0 <= r < g ==> mdoffs[r + 1] == sizes[r] + if r == 0 then len else 0
    {
      mdoffs[g + 1] := sizes[g] + if g == 0 then len else 0;
      g := g + 1;
    }
    var i := 0;
    assert secs[..0] == [];
    while i < np
      invariant 0 <= i <= np && mdoffs[0] == 0
      invariant forall r :: 1 <= r <= i ==> mdoffs[r] == StartOf(secs, r)
      invariant forall r :: i <= r < np ==> mdoffs[r + 1] == sizes[r] + if r == 0 then len else 0
    {
      TotalSnoc(secs, i);
      mdoffs[i + 1] := mdoffs[i + 1] + mdoffs[i];
      i := i + 1;
    }
    total := mdoffs[np];
    starts := mdoffs[..np];
    mdoffs[0] := len / 8 - 1;
    assert forall r :: 0 <= r < |secs| ==> starts[r] == if r == 0 then 0 else StartOf(secs, r);
    TableSums(sizes, secs);
  }

  /** The words of the table: how many sizes there are, then the running sums of the sizes behind the table itself. */
  ghost predicate Summed(sizes: seq<nat>, t: seq<int>)
  {
    |t| == |sizes| + 1 > 1 && t[0] == |sizes| && t[1] == 8 * (|sizes| + 1) + sizes[0] &&
    forall r :: 1 <= r < |sizes| ==> t[r + 1] == t[r] + sizes[r]
  }

  lemma TableSums(sizes: seq<nat>, secs: seq<Sec>)
    requires |sizes| == |secs| > 0 && forall r :: 0 <= r < |secs| ==> sizes[r] == secs[r].q.mdsize
    ensures Summed(sizes, Table(secs))
  {
    var t := Table(secs);
    StartsTile(secs, 0);
    forall r | 1 <= r < |sizes| ensures t[r + 1] == t[r] + sizes[r] { StartsTile(secs, r); }
  }

  /** Sections follow one another behind the table to the end of the dataset: they tile it. */
  lemma StartsTile(secs: seq<Sec>, r: nat)
    requires r < |secs|
    ensures StartOf(secs, 0) == TableSize(|secs|) && StartOf(secs, r + 1) == StartOf(secs, r) + secs[r].q.mdsize
    ensures StartOf(secs, |secs|) == TableSize(|secs|) + TotalSize(secs)
  {
    assert secs[..0] == [] && secs[..|secs|] == secs;
    TotalSnoc(secs, r);
  }

  function Dataset(cfg: bool, share: bool, secs: seq<Sec>): (b: seq<byte>)
    requires SecsOk(cfg, share, secs) && AllFit(Table(secs))
  {
    Words(Table(secs)) + Concat(cfg, share, secs)
  }

  // ----- parsing -----

  /** The entries a reader should find in the sections. */
  function Entries(s: Sec): seq<Entry>
  {
    if |s.q.reqs| == |s.writes| then AllExpected(s.q, s.writes, 0) else []
  }

  function AllEntries(secs: seq<Sec>): seq<Entry>
    decreases |secs|
  {
    if secs == [] then [] else Entries(secs[0]) + AllEntries(secs[1..])
  }

  lemma {:induction false} AllEntriesConcat(a: seq<Sec>, b: seq<Sec>)
    ensures AllEntries(a + b) == AllEntries(a) + AllEntries(b)
    decreases |a|
  {
    hide Entries;
    if a == [] {
      assert a + b == b;
    } else {
      AllEntriesConcat(a[1..], b);
      assert (a + b)[1..] == a[1..] + b && (a + b)[0] == a[0];
    }
  }

  ghost predicate AllTyped(dsets: seq<Dset>, secs: seq<Sec>)
  {
    forall i :: 0 <= i < |secs| ==> Typed(dsets, secs[i].writes)
  }

  /** Any run of whole sections is parsed into their entries, wherever it stands. */
  lemma {:induction false} ParseSections(cfg: bool, share: bool, dsets: seq<Dset>, secs: seq<Sec>, buf: seq<byte>, base: nat, cache: Cache)
    requires SecsOk(cfg, share, secs) && AllTyped(dsets, secs)
    requires At(buf, base, Concat(cfg, share, secs)) && base + |Concat(cfg, share, secs)| == |buf|
    ensures ParseList(share, dsets, buf, base, |buf|, cache) == Some(AllEntries(secs))
    decreases |secs|
  {
    hide Stored, Step, Typed, AllExpected, Append, Section, At;
    if secs != [] {
      var s, t := secs[0], secs[1..];
      var here, rest := SecBytes(cfg, share, s), Concat(cfg, share, t);
      SecFits(cfg, share, s);
      AtSplit(buf, base, here, rest);
      var cache' := SectionRoundTrip(cfg, share, dsets, s.q, s.writes, buf, base, |buf|, cache);
      ParseSections(cfg, share, dsets, t, buf, base + s.q.mdsize, cache');
      AppendSome(AllExpected(s.q, s.writes, 0), AllEntries(t));
    }
  }

  lemma AppendSome(a: seq<Entry>, b: seq<Entry>)
    ensures Append(a, Some(b)) == Some(a + b)
  {
  }

  /** Reading a whole metadata dataset: number of sections, then everything behind the table. */
  function LoadDataset(share: bool, dsets: seq<Dset>, ds: seq<byte>): Option<seq<Entry>>
  {
    if |ds| < 8 || Get64(ds, 0) < 0 || 8 * (Get64(ds, 0) + 1) > |ds| then None
    else
      var buf := ds[8 * (Get64(ds, 0) + 1)..];
      ParseList(share, dsets, buf, 0, |buf|, map[])
  }

  lemma TableReads(cfg: bool, share: bool, secs: seq<Sec>, r: nat)
    requires SecsOk(cfg, share, secs) && AllFit(Table(secs)) && r <= |secs|
    ensures |Dataset(cfg, share, secs)| == StartOf(secs, |secs|) && Get64(Dataset(cfg, share, secs), 8 * r) == Table(secs)[r]
    ensures Dataset(cfg, share, secs)[TableSize(|secs|)..] == Concat(cfg, share, secs)
  {
    hide SecOk, Table, Words;
    var ds := Dataset(cfg, share, secs);
    ConcatLen(cfg, share, secs);
    assert secs[..|secs|] == secs;
    assert At(ds, 0, Words(Table(secs)));
    ReadWords(ds, 0, Table(secs));
    assert GetWords(ds, 0, |Table(secs)|)[r] == Get64(ds, 0 + 8 * r);
  }

  /** Metadata dataset round trip: the loader finds the entries of all sections, in order. */
  lemma DatasetRoundTrip(cfg: bool, share: bool, dsets: seq<Dset>, secs: seq<Sec>)
    requires SecsOk(cfg, share, secs) && AllFit(Table(secs)) && AllTyped(dsets, secs)
    ensures LoadDataset(share, dsets, Dataset(cfg, share, secs)) == Some(AllEntries(secs))
  {
    hide SecOk, Dataset, ParseList, Concat, AllTyped;
    TableReads(cfg, share, secs, 0);
    var buf := Concat(cfg, share, secs);
    assert [] + buf + [] == buf;
    AtConcat([], buf, []);
    ParseSections(cfg, share, dsets, secs, buf, 0, map[]);
  }

  // ----- bounded loading -----

  /** How far the part that starts with section sec reaches: at least one section, and as many as fit. */
  function PartEnd(secs: seq<Sec>, start: nat, i: nat, limit: nat): (e: nat)
    requires i <= |secs|
    ensures i <= e <= |secs|
    decreases |secs| - i
  {
    if i == |secs| || StartOf(secs, i + 1) - start > limit then i else PartEnd(secs, start, i + 1, limit)
  }

  lemma {:induction false} PartFits(secs: seq<Sec>, sec: nat, i: nat, limit: nat)
    requires sec < i <= |secs| && (i == sec + 1 || StartOf(secs, i) - StartOf(secs, sec) <= limit)
    ensures var e := PartEnd(secs, StartOf(secs, sec), i, limit);
            e == sec + 1 || StartOf(secs, e) - StartOf(secs, sec) <= limit
    decreases |secs| - i
  {
    if !(i == |secs| || StartOf(secs, i + 1) - StartOf(secs, sec) > limit) { PartFits(secs, sec, i + 1, limit); }
  }

  /** The part ends only where the next section no longer fits. */
  lemma {:induction false} PartIsFull(secs: seq<Sec>, sec: nat, i: nat, limit: nat)
    requires sec < i <= |secs|
    ensures var e := PartEnd(secs, StartOf(secs, sec), i, limit);
            e == |secs| || TotalSize(secs[..e + 1]) - TotalSize(secs[..sec]) > limit
    decreases |secs| - i
  {
    hide TotalSize;
    if !(i == |secs| || StartOf(secs, i + 1) - StartOf(secs, sec) > limit) { PartIsFull(secs, sec, i + 1, limit); }
  }

  lemma {:induction false} ConcatSplit(cfg: bool, share: bool, a: seq<Sec>, b: seq<Sec>)
    requires SecsOk(cfg, share, a) && SecsOk(cfg, share, b)
    ensures SecsOk(cfg, share, a + b) && Concat(cfg, share, a + b) == Concat(cfg, share, a) + Concat(cfg, share, b)
    decreases |a|
  {
    hide SecOk, SecBytes;
    if a == [] {
      assert a + b == b;
    } else {
      ConcatSplit(cfg, share, a[1..], b);
      assert (a + b)[1..] == a[1..] + b && (a + b)[0] == a[0];
      ConcatAssoc(SecBytes(cfg, share, a[0]), Concat(cfg, share, a[1..]), Concat(cfg, share, b));
    }
  }

  lemma DatasetParts(cfg: bool, share: bool, secs: seq<Sec>, a: nat, b: nat)
    requires SecsOk(cfg, share, secs) && AllFit(Table(secs)) && a <= b <= |secs|
    ensures SecsOk(cfg, share, secs[..a]) && SecsOk(cfg, share, secs[a..b]) && SecsOk(cfg, share, secs[b..])
    ensures Dataset(cfg, share, secs) ==
            (Words(Table(secs)) + Concat(cfg, share, secs[..a])) + Concat(cfg, share, secs[a..b]) + Concat(cfg, share, secs[b..])
    ensures |Concat(cfg, share, secs[..a])| == TotalSize(secs[..a])
    ensures |Concat(cfg, share, secs[..a])| + |Concat(cfg, share, secs[a..b])| == TotalSize(secs[..b])
  {
    hide SecOk, Table, Words, TotalSize, SecBytes;
    var x, y, z := secs[..a], secs[a..b], secs[b..];
    assert secs == (x + y) + z && secs[..b] == x + y;
    ConcatSplit(cfg, share, x, y);
    ConcatSplit(cfg, share, x + y, z);
    ConcatLen(cfg, share, x);
    ConcatLen(cfg, share, x + y);
    FourParts(Words(Table(secs)), Concat(cfg, share, x), Concat(cfg, share, y), Concat(cfg, share, z));
  }

  lemma FourParts(t: seq<byte>, x: seq<byte>, y: seq<byte>, z: seq<byte>)
    ensures t + ((x + y) + z) == (t + x) + y + z
  {
  }

  /** The bytes between two section starts are those of the sections between. */
  lemma PartBytes(cfg: bool, share: bool, secs: seq<Sec>, a: nat, b: nat)
    requires SecsOk(cfg, share, secs) && AllFit(Table(secs)) && a <= b <= |secs|
    ensures SecsOk(cfg, share, secs[a..b]) && StartOf(secs, a) <= StartOf(secs, b) <= |Dataset(cfg, share, secs)|
    ensures Dataset(cfg, share, secs)[StartOf(secs, a)..StartOf(secs, b)] == Concat(cfg, share, secs[a..b])
  {
    hide SecOk, SecsOk, Words, TotalSize, Concat, Dataset, Table;
    DatasetParts(cfg, share, secs, a, b);
    var t, x := Words(Table(secs)), Concat(cfg, share, secs[..a]);
    assert |t| == 8 * |Table(secs)|;
    Middle(t + x, Concat(cfg, share, secs[a..b]), Concat(cfg, share, secs[b..]), Dataset(cfg, share, secs));
  }

  lemma Middle(x: seq<byte>, y: seq<byte>, z: seq<byte>, s: seq<byte>)
    requires s == x + y + z
    ensures s[|x|..|x| + |y|] == y
  {
  }

  datatype Place = Place(md: int, sec: nat)

  /** Reads the number of sections and the section ends, and decides how many sections to load. */
  method FindPart(cfg: bool, share: bool, ds: seq<byte>, sec: nat, limit: nat, ghost secs: seq<Sec>)
      returns (start: nat, stop: nat, nsec: int, e: nat)
    requires SecsOk(cfg, share, secs) && AllFit(Table(secs)) && ds == Dataset(cfg, share, secs) && sec < |secs|
    ensures nsec == |secs| && sec < e <= |secs| && start == StartOf(secs, sec) && stop == StartOf(secs, e)
    ensures e == PartEnd(secs, start, sec + 1, limit)
  {
    hide SecsOk, Dataset, Table, StartOf;
    Word(cfg, share, secs, 0);
    Word(cfg, share, secs, sec);
    StartZero(secs);
    nsec := Get64(ds, 0);
    start := if sec == 0 then 8 * (nsec + 1) else Get64(ds, 8 * sec);
    e := sec + 1;
    while e < nsec
      invariant sec < e <= nsec && PartEnd(secs, start, e, limit) == PartEnd(secs, start, sec + 1, limit)
    {
      Word(cfg, share, secs, e + 1);
      if Get64(ds, 8 * (e + 1)) - start > limit { break; }
      e := e + 1;
    }
    Word(cfg, share, secs, e);
    stop := Get64(ds, 8 * e);
  }

  lemma Word(cfg: bool, share: bool, secs: seq<Sec>, r: nat)
    requires SecsOk(cfg, share, secs) && AllFit(Table(secs)) && r <= |secs|
    ensures 8 * r + 8 <= |Dataset(cfg, share, secs)| && Get64(Dataset(cfg, share, secs), 8 * r) == if r == 0 then |secs| else StartOf(secs, r)
  {
    hide SecsOk, Dataset;
    TableReads(cfg, share, secs, r);
    assert secs[..|secs|] == secs;
  }

  /** One call of the partial loader on dataset md from section sec on: the entries loaded and the next place. */
  method LoadPart(cfg: bool, share: bool, dsets: seq<Dset>, mds: seq<seq<byte>>, md: nat, sec: nat, limit: nat, ghost secs: seq<Sec>,
      idx: ListIndex) returns (next: Place, e: nat)
    requires idx.dsets == dsets && idx.share == share && |idx.idxs| == |dsets|
    requires md < |mds| && SecsOk(cfg, share, secs) && AllFit(Table(secs)) && AllTyped(dsets, secs)
    requires mds[md] == Dataset(cfg, share, secs) && sec < |secs|
    modifies idx
    ensures sec < e <= |secs| && |idx.idxs| == |dsets|
    ensures forall d :: 0 <= d < |idx.idxs| ==> idx.idxs[d] == OfDataset(AllEntries(secs[sec..e]), d)
    ensures e == sec + 1 || TotalSize(secs[..e]) - TotalSize(secs[..sec]) <= limit
    ensures e == |secs| || TotalSize(secs[..e + 1]) - TotalSize(secs[..sec]) > limit
    ensures next == if e < |secs| then Place(md, e) else if md + 1 < |mds| then Place(md + 1, 0) else Place(-1, 0)
  {
    hide SecOk, Dataset, ParseList, Concat, AllTyped, Table, TotalSize, AllEntries, PartEnd, OfDataset, Grown;
    var start, stop, nsec;
    start, stop, nsec, e := FindPart(cfg, share, mds[md], sec, limit, secs);
    PartFits(secs, sec, sec + 1, limit);
    PartIsFull(secs, sec, sec + 1, limit);
    PartBytes(cfg, share, secs, sec, e);
    var buf := mds[md][start..stop];
    PartParses(cfg, share, dsets, secs, sec, e, buf);
    idx.Clear();
    ghost var was := idx.idxs;
    var ok := idx.ParseBlock(buf, AllEntries(secs[sec..e]));
    GrownFromNothing(was, idx.idxs, AllEntries(secs[sec..e]));
    next := if e < nsec then Place(md, e) else if md + 1 < |mds| then Place(md + 1, 0) else Place(-1, 0);
  }

  lemma GrownFromNothing(was: seq<seq<Entry>>, idxs: seq<seq<Entry>>, es: seq<Entry>)
    requires Grown(was, idxs, es) && forall d :: 0 <= d < |was| ==> was[d] == []
    ensures forall d :: 0 <= d < |idxs| ==> idxs[d] == OfDataset(es, d)
  {
    hide OfDataset;
  }

  lemma PartParses(cfg: bool, share: bool, dsets: seq<Dset>, secs: seq<Sec>, a: nat, b: nat, buf: seq<byte>)
    requires SecsOk(cfg, share, secs) && AllTyped(dsets, secs) && a <= b <= |secs| && SecsOk(cfg, share, secs[a..b])
    requires buf == Concat(cfg, share, secs[a..b])
    ensures ParseList(share, dsets, buf, 0, |buf|, map[]) == Some(AllEntries(secs[a..b]))
  {
    hide SecOk, ParseList, Concat, AllEntries;
    assert [] + buf + [] == buf;
    AtConcat([], buf, []);
    SliceOk(cfg, share, dsets, secs, a, b);
    ParseSections(cfg, share, dsets, secs[a..b], buf, 0, map[]);
  }

  lemma StartZero(secs: seq<Sec>)
    ensures StartOf(secs, 0) == 8 * (|secs| + 1)
  {
    assert secs[..0] == [];
  }

  lemma SliceOk(cfg: bool, share: bool, dsets: seq<Dset>, secs: seq<Sec>, a: nat, b: nat)
    requires SecsOk(cfg, share, secs) && AllTyped(dsets, secs) && a <= b <= |secs|
    ensures SecsOk(cfg, share, secs[a..b]) && AllTyped(dsets, secs[a..b])
  {
    hide SecOk, Typed;
  }

  // ----- bounded search -----

  lemma {:induction false} BlockHitsConcat(a: seq<Entry>, b: seq<Entry>, q: Block, soff: nat)
    requires |q.start| == |q.count| && Ranked(|q.start|, a) && Ranked(|q.start|, b)
    ensures Ranked(|q.start|, a + b) && BlockHits(a + b, q, soff) == BlockHits(a, q, soff) + BlockHits(b, q, soff)
    decreases |a|
  {
    hide EntryHits, RankedSels;
    if a == [] {
      assert a + b == b;
    } else {
      BlockHitsConcat(a[1..], b, q, soff);
      assert (a + b)[1..] == a[1..] + b && (a + b)[0] == a[0];
      ConcatAssoc(EntryHits(a[0].hdr, a[0].sels, q, soff), BlockHits(a[1..], q, soff), BlockHits(b, q, soff));
    }
  }

  /** Searching two indexes one after the other finds what searching both as one finds. */
  lemma {:induction false} SearchConcat(n: nat, esize: nat, a: seq<Entry>, b: seq<Entry>, qs: seq<Block>, soff: nat)
    requires Rank(n, qs) && Ranked(n, a) && Ranked(n, b)
    ensures Ranked(n, a + b)
    ensures multiset(SearchList(n, esize, a + b, qs, soff)) ==
            multiset(SearchList(n, esize, a, qs, soff)) + multiset(SearchList(n, esize, b, qs, soff))
    decreases |qs|
  {
    hide BlockHits, Prod, RankedSels;
    if qs != [] {
      var next := soff + Prod(qs[0].count) * esize;
      BlockHitsConcat(a, b, qs[0], soff);
      SearchConcat(n, esize, a, b, qs[1..], next);
    }
  }

  // ----- all metadata datasets -----

  function EntriesOf(all: seq<seq<Sec>>): seq<Entry>
    decreases |all|
  {
    if all == [] then [] else AllEntries(all[0]) + EntriesOf(all[1..])
  }

  ghost predicate Stands(cfg: bool, share: bool, dsets: seq<Dset>, secs: seq<Sec>, ds: seq<byte>)
  {
    SecsOk(cfg, share, secs) && AllTyped(dsets, secs) && AllFit(Table(secs)) && ds == Dataset(cfg, share, secs)
  }

  /** The metadata datasets of the file hold these sections. */
  ghost predicate MetaHolds(cfg: bool, share: bool, dsets: seq<Dset>, all: seq<seq<Sec>>, mds: seq<seq<byte>>)
  {
    |all| == |mds| && forall i :: 0 <= i < |all| ==> all[i] != [] && Stands(cfg, share, dsets, all[i], mds[i])
  }

  lemma {:induction false} EntriesOfSnoc(all: seq<seq<Sec>>, k: nat)
    requires k < |all|
    ensures EntriesOf(all[..k + 1]) == EntriesOf(all[..k]) + AllEntries(all[k])
    decreases k
  {
    hide AllEntries;
    if k == 0 {
      assert all[..1][1..] == [] && all[..0] == [];
    } else {
      EntriesOfSnoc(all[1..], k - 1);
      assert all[..k + 1][1..] == all[1..][..k] && all[..k][1..] == all[1..][..k - 1];
    }
  }

  /** What has been loaded before section sec of dataset md, in order. */
  function LoadedBefore(all: seq<seq<Sec>>, md: nat, sec: nat): seq<Entry>
    requires md < |all| && sec <= |all[md]|
  {
    EntriesOf(all[..md]) + AllEntries(all[md][..sec])
  }

  lemma LoadMore(all: seq<seq<Sec>>, md: nat, sec: nat, e: nat)
    requires md < |all| && sec <= e <= |all[md]|
    ensures LoadedBefore(all, md, e) == LoadedBefore(all, md, sec) + AllEntries(all[md][sec..e])
    ensures e == |all[md]| && md + 1 < |all| ==> LoadedBefore(all, md + 1, 0) == LoadedBefore(all, md, e)
    ensures e == |all[md]| && md + 1 == |all| ==> EntriesOf(all) == LoadedBefore(all, md, e)
  {
    hide EntriesOf;
    var s := all[md];
    assert s[..e] == s[..sec] + s[sec..e];
    AllEntriesConcat(s[..sec], s[sec..e]);
    EntriesOfSnoc(all, md);
    assert e == |s| ==> s[..e] == s;
    assert all[..|all|] == all;
    if md + 1 < |all| { assert all[md + 1][..0] == [] && EntriesOf(all[..md + 1]) + [] == EntriesOf(all[..md + 1]); }
  }

  lemma {:induction false} RankedPart(n: nat, a: seq<Entry>, b: seq<Entry>, did: int)
    requires Ranked(n, OfDataset(a + b, did))
    ensures Ranked(n, OfDataset(a, did)) && Ranked(n, OfDataset(b, did)) && OfDataset(a + b, did) == OfDataset(a, did) + OfDataset(b, did)
  {
    hide OfDataset, RankedSels;
    OfDatasetConcat(a, b, did);
    var x, y := OfDataset(a, did), OfDataset(b, did);
    forall i | 0 <= i < |x| ensures RankedSels(n, x[i].sels) { assert x[i] == (x + y)[i]; }
    forall i | 0 <= i < |y| ensures RankedSels(n, y[i].sels) { assert y[i] == (x + y)[|x| + i]; }
  }

  lemma {:induction false} PrefixOfAll(all: seq<seq<Sec>>, md: nat, e: nat) returns (rest: seq<Entry>)
    requires md < |all| && e <= |all[md]|
    ensures EntriesOf(all) == LoadedBefore(all, md, e) + rest
    decreases |all| - md
  {
    hide EntriesOf, LoadedBefore, AllEntries;
    LoadMore(all, md, e, |all[md]|);
    if md + 1 == |all| {
      rest := AllEntries(all[md][e..|all[md]|]);
    } else {
      LoadMore(all, md + 1, 0, 0);
      var r := PrefixOfAll(all, md + 1, 0);
      rest := AllEntries(all[md][e..|all[md]|]) + r;
      ConcatAssoc(LoadedBefore(all, md, e), AllEntries(all[md][e..|all[md]|]), r);
    }
  }

  lemma NothingLoaded(all: seq<seq<Sec>>, n: nat, esize: nat, did: int, qs: seq<Block>)
    requires all != [] && Rank(n, qs)
    ensures LoadedBefore(all, 0, 0) == [] && SearchList(n, esize, OfDataset([], did), qs, 0) == []
  {
    assert all[..0] == [] && all[0][..0] == [];
    EmptySearch(n, esize, qs, 0);
  }

  lemma {:induction false} EmptySearch(n: nat, esize: nat, qs: seq<Block>, soff: nat)
    requires Rank(n, qs)
    ensures SearchList(n, esize, [], qs, soff) == []
    decreases |qs|
  {
    if qs != [] { EmptySearch(n, esize, qs[1..], soff + Prod(qs[0].count) * esize); }
  }

  /** The search with a bounded metadata buffer: load a part, search it, go on until the loader answers -1.
      It terminates and finds what a search of everything at once finds. */
  method BoundedSearch(cfg: bool, share: bool, dsets: seq<Dset>, mds: seq<seq<byte>>, limit: nat, did: nat, qs: seq<Block>,
      ghost all: seq<seq<Sec>>) returns (hits: seq<Isect>)
    requires MetaHolds(cfg, share, dsets, all, mds) && mds != [] && did < |dsets| && Rank(|dsets[did].dims|, qs)
    requires Ranked(|dsets[did].dims|, OfDataset(EntriesOf(all), did))
    ensures multiset(hits) == multiset(SearchList(|dsets[did].dims|, dsets[did].esize, OfDataset(EntriesOf(all), did), qs, 0))
  {
    hide Stands, EntriesOf, AllEntries, LoadedBefore, OfDataset, SearchList, Ranked, TotalSize;
    var n, esize := |dsets[did].dims|, dsets[did].esize;
    hits := [];
    var at := Place(0, 0);
    var idx := new ListIndex(dsets, share);
    ghost var done: seq<Entry> := [];
    NothingLoaded(all, n, esize, did, qs);
    NoneRanked(n, did);
    while at.md != -1
      invariant at.md == -1 || (0 <= at.md < |all| && at.sec < |all[at.md]|)
      invariant done == if at.md == -1 then EntriesOf(all) else LoadedBefore(all, at.md, at.sec)
      invariant fresh(idx) && idx.dsets == dsets && idx.share == share && |idx.idxs| == |dsets|
      invariant Ranked(n, OfDataset(done, did)) && multiset(hits) == multiset(SearchList(n, esize, OfDataset(done, did), qs, 0))
      decreases if at.md == -1 then 0 else |all| - at.md, if at.md == -1 then 0 else |all[at.md]| - at.sec
    {
      StandsFacts(cfg, share, dsets, all[at.md], mds[at.md]);
      var next, e := LoadPart(cfg, share, dsets, mds, at.md, at.sec, limit, all[at.md], idx);
      ghost var es := AllEntries(all[at.md][at.sec..e]);
      LoadMore(all, at.md, at.sec, e);
      ghost var rest := PrefixOfAll(all, at.md, e);
      RankedPart(n, done + es, rest, did);
      RankedPart(n, done, es, did);
      var found := idx.Search(did, qs);
      SearchConcat(n, esize, OfDataset(done, did), OfDataset(es, did), qs, 0);
      hits := hits + found;
      done := done + es;
      at := next;
    }
  }

  lemma NoneRanked(n: nat, did: int)
    ensures Ranked(n, OfDataset([], did))
  {
  }

  lemma StandsFacts(cfg: bool, share: bool, dsets: seq<Dset>, secs: seq<Sec>, ds: seq<byte>)
    requires Stands(cfg, share, dsets, secs, ds)
    ensures SecsOk(cfg, share, secs) && AllTyped(dsets, secs) && AllFit(Table(secs)) && ds == Dataset(cfg, share, secs)
  {
  }
}
