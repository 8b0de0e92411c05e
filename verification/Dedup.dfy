/** The write queue of one process: requests, their anticipated metadata offsets, and the replacement of a
    repeated selection by a reference to the request that introduced it. */
module Dedup {
  import opened Grid
  import opened Radix
  import opened Bytes
  import opened MetaCodec
  import opened EntryCodec

  /** One write call: dataset as it was at the time, selection, and packed data. */
  datatype Write = Write(did: nat, dset: Dset, blocks: seq<Block>, data: seq<byte>)

  /** A queued request. Its buffer holds the header, the record number if there is one, and from `sel_buf` on
      the encoded selection; `metaOff` is the anticipated offset of the entry in the process's metadata. */
  datatype Req = Req(hdr: Hdr, record: Option<nat>, sel: seq<byte>, metaOff: nat)

  datatype Queue = Queue(reqs: seq<Req>, mdsize: nat, table: set<nat>)

  const EMPTY := Queue([], 0, {})

  function Size(record: Option<nat>, sel: seq<byte>): nat
  {
    HDRSIZE + (if record.Some? then 8 else 0) + |sel|
  }

  function RecordOf(w: Write): Option<nat>
    requires Rank(|w.dset.dims|, w.blocks) && w.blocks != []
  {
    if IsRec(w.dset, w.blocks) then Some(RecNum(w.blocks)) else None
  }

  /** What a caller of write must supply: a non-empty selection that the entry format can carry, with as many
      data bytes as it has elements. */
  ghost predicate WriteOk(cfg: bool, w: Write)
  {
    Rank(|w.dset.dims|, w.blocks) && w.blocks != [] && BodyFits(cfg, w.dset, w.blocks) &&
    (forall i :: 0 <= i < |w.blocks| ==> Positive(w.blocks[i].count)) &&
    Encodes(cfg, w.dset, w.blocks) && |w.data| == SelSize(w.blocks) * w.dset.esize &&
    Fits32(w.did) && Fits64(|w.data|) && Fits32(Size(RecordOf(w), EntryTail(cfg, w.dset, w.blocks)))
  }

  /** The request built by the constructor. */
  ghost function NewReq(cfg: bool, w: Write, metaOff: nat, foff: int): (r: Req)
    requires WriteOk(cfg, w)
  {
    var record := RecordOf(w);
    var sel := EntryTail(cfg, w.dset, w.blocks);
    Req(Hdr(Size(record, sel), w.did, EntryFlags(cfg, w.dset, w.blocks), foff, |w.data|), record, sel, metaOff)
  }

  /** Request equality: same entry size, and the selections agree as far as both go. */
  predicate MayEqual(a: Req, b: Req)
  {
    a.hdr.metaSize == b.hdr.metaSize && (a.sel <= b.sel || b.sel <= a.sel)
  }

  /** The request with its selection replaced by the relative offset of entry t. It keeps its record number
      unless t is of the same record. */
  function Refer(r: Req, t: Req): (s: Req)
    requires Fits64(t.metaOff - r.metaOff)
  {
    var record := if r.record == t.record then None else r.record;
    var sel := I64(t.metaOff - r.metaOff);
    Req(r.hdr.(flag := r.hdr.flag.(ref := true, rec := record.Some?), metaSize := Size(record, sel)), record, sel, r.metaOff)
  }

  /** What the lookup in the hash table may return: nothing, or a stored request that compares equal. */
  predicate Found(q: Queue, r: Req, hit: Option<nat>)
  {
    hit.Some? ==> hit.value in q.table && hit.value < |q.reqs| && MayEqual(r, q.reqs[hit.value])
  }

  /** Deduplication applies when sharing is on and the selection is longer than a reference. */
  predicate Shared(share: bool, r: Req) { share && |r.sel| > WORD }

  /** A request that is kept in full and whose selection is longer than a reference. */
  predicate LongInFull(r: Req) { !r.hdr.flag.ref && |r.sel| > 8 }

  /** The table holds exactly the long requests kept in full, and nothing if sharing is off. */
  ghost predicate TableHolds(share: bool, q: Queue)
  {
    forall t :: t in q.table <==> share && 0 <= t < |q.reqs| && LongInFull(q.reqs[t])
  }

  /** Appends a request; `entered` tells whether it is entered in the hash table. */
  function Queued(q: Queue, r: Req, entered: bool): Queue
    requires r.hdr.metaSize >= 0
  {
    Queue(q.reqs + [r], q.mdsize + r.hdr.metaSize, if entered then q.table + {|q.reqs|} else q.table)
  }

  /** A write: encode, deduplicate, append. */
  ghost function Enqueue(cfg: bool, share: bool, q: Queue, w: Write, hit: Option<nat>): (q': Queue)
    requires WriteOk(cfg, w) && Found(q, NewReq(cfg, w, q.mdsize, 0), hit)
    requires hit.Some? ==> Fits64(q.reqs[hit.value].metaOff - q.mdsize)
  {
    var r := NewReq(cfg, w, q.mdsize, 0);
    if Shared(share, r) && hit.Some? then Queued(q, Refer(r, q.reqs[hit.value]), false) else Queued(q, r, Shared(share, r))
  }

  // ----- requests that compare equal have the same shape -----

  ghost predicate SameRecord(a: Write, b: Write)
    requires Rank(|a.dset.dims|, a.blocks) && Rank(|b.dset.dims|, b.blocks)
  {
    IsRec(a.dset, a.blocks) == IsRec(b.dset, b.blocks)
  }

  function Bit(b: bool): nat { if b then 1 else 0 }

  /** Words of the selection of a write. */
  ghost function SelCount(cfg: bool, w: Write): nat
    requires WriteOk(cfg, w)
  {
    WordCount(EntryFlags(cfg, w.dset, w.blocks).enc, |InnerDims(IsRec(w.dset, w.blocks), w.dset.dims)|, |w.blocks|)
  }

  lemma ReqSize(cfg: bool, w: Write)
    requires WriteOk(cfg, w)
    ensures NewReq(cfg, w, 0, 0).hdr.metaSize ==
            HDRSIZE + 8 * Bit(IsRec(w.dset, w.blocks)) + 4 * Bit(|w.blocks| > 1) + 8 * SelCount(cfg, w)
  {
    var rec := IsRec(w.dset, w.blocks);
    InnerRank(w.dset, w.blocks);
    SelWordsLen(EntryFlags(cfg, w.dset, w.blocks).enc, InnerDims(rec, w.dset.dims), InnerBlocks(rec, w.blocks));
  }

  lemma CountsAgree(cfg: bool, a: Write, b: Write)
    requires WriteOk(cfg, a) && WriteOk(cfg, b) && |a.blocks| > 1 && |b.blocks| > 1
    requires MayEqual(NewReq(cfg, a, 0, 0), NewReq(cfg, b, 0, 0))
    ensures |a.blocks| == |b.blocks|
  {
    var s, t := EntryTail(cfg, a.dset, a.blocks), EntryTail(cfg, b.dset, b.blocks);
    assert s[..4] == I32(|a.blocks|) && t[..4] == I32(|b.blocks|);
    assert s[..4] == t[..4];
    Read32(s[..4], 0, |a.blocks|);
    Read32(s[..4], 0, |b.blocks|);
  }

  lemma SameDepth(n: nat, e1: nat, e2: nat)
    requires n > 0 && e1 * n == e2 * n
    ensures e1 == e2
  {
    if e1 < e2 { MulGap(e1, e2, n, 0, 0); }
    if e2 < e1 { MulGap(e2, e1, n, 0, 0); }
  }

  /** Number of selection words, as a function of the rank that is encoded, grows with the rank. */
  lemma SizesForce(cfg: bool, r1: nat, e1: nat, r2: nat, e2: nat, n: nat, w1: nat, w2: nat)
    requires r1 <= 1 && r2 <= 1 && n > 0
    requires w1 == WordCount(UseSteps(cfg, e1, n), e1, n) && w2 == WordCount(UseSteps(cfg, e2, n), e2, n)
    requires r1 + w1 == r2 + w2
    ensures e1 + r1 == e2 + r2
    ensures !cfg || n == 1 ==> r1 == r2
  {
    if r1 == r2 && !UseSteps(cfg, e1, n) && !UseSteps(cfg, e2, n) { SameDepth(n, e1, e2); }
    if UseSteps(cfg, e1, n) && !UseSteps(cfg, e2, n) { SmallDepth(e2, n); }
    if UseSteps(cfg, e2, n) && !UseSteps(cfg, e1, n) { SmallDepth(e1, n); }
    if r1 != r2 && UseSteps(cfg, 2, n) {
      SmallDepth(e1, n);
      SmallDepth(e2, n);
    }
  }

  lemma SmallDepth(e: nat, n: nat)
    ensures e == 0 ==> 2 * (e * n) == 0
    ensures e == 1 ==> 2 * (e * n) == 2 * n
  {
  }

  lemma BytesForce(r1: nat, m1: nat, w1: nat, r2: nat, m2: nat, w2: nat)
    requires r1 <= 1 && r2 <= 1 && m1 <= 1 && m2 <= 1
    requires 8 * r1 + 4 * m1 + 8 * w1 == 8 * r2 + 4 * m2 + 8 * w2
    ensures m1 == m2 && r1 + w1 == r2 + w2
  {
  }

  lemma EqualSizes(cfg: bool, a: Write, b: Write)
    requires WriteOk(cfg, a) && WriteOk(cfg, b)
    requires MayEqual(NewReq(cfg, a, 0, 0), NewReq(cfg, b, 0, 0))
    ensures |a.blocks| == |b.blocks|
    ensures Bit(IsRec(a.dset, a.blocks)) + SelCount(cfg, a) == Bit(IsRec(b.dset, b.blocks)) + SelCount(cfg, b)
  {
    ReqSize(cfg, a);
    ReqSize(cfg, b);
    BytesForce(Bit(IsRec(a.dset, a.blocks)), Bit(|a.blocks| > 1), SelCount(cfg, a),
               Bit(IsRec(b.dset, b.blocks)), Bit(|b.blocks| > 1), SelCount(cfg, b));
    if |a.blocks| > 1 { CountsAgree(cfg, a, b); }
  }

  /** Requests that compare equal were made for selections of as many blocks in datasets of the same rank;
      without step encoding, or with one block, they are also alike in being record writes or not. */
  lemma ShapeForced(cfg: bool, a: Write, b: Write)
    requires WriteOk(cfg, a) && WriteOk(cfg, b)
    requires MayEqual(NewReq(cfg, a, 0, 0), NewReq(cfg, b, 0, 0))
    ensures |a.blocks| == |b.blocks| && |a.dset.dims| == |b.dset.dims|
    ensures !cfg || |a.blocks| == 1 ==> SameRecord(a, b)
  {
    EqualSizes(cfg, a, b);
    var ra, rb := IsRec(a.dset, a.blocks), IsRec(b.dset, b.blocks);
    SizesForce(cfg, Bit(ra), |InnerDims(ra, a.dset.dims)|, Bit(rb), |InnerDims(rb, b.dset.dims)|, |a.blocks|, SelCount(cfg, a), SelCount(cfg, b));
  }

  lemma TailRead(cfg: bool, w: Write)
    requires WriteOk(cfg, w)
    ensures var rec, f := IsRec(w.dset, w.blocks), EntryFlags(cfg, w.dset, w.blocks);
            ReadTail(f.mul, f.enc, |InnerDims(rec, w.dset.dims)|, EntryTail(cfg, w.dset, w.blocks), 0) == Some(InnerBlocks(rec, w.blocks))
  {
    var rec := IsRec(w.dset, w.blocks);
    InnerRank(w.dset, w.blocks);
    TailRoundTrip(cfg, InnerDims(rec, w.dset.dims), InnerBlocks(rec, w.blocks), EntryTail(cfg, w.dset, w.blocks), 0);
  }

  /** If moreover both or neither are record writes, the encoded selections are the same blocks. */
  lemma EqualSelections(cfg: bool, a: Write, b: Write)
    requires WriteOk(cfg, a) && WriteOk(cfg, b) && SameRecord(a, b)
    requires MayEqual(NewReq(cfg, a, 0, 0), NewReq(cfg, b, 0, 0))
    ensures |a.blocks| == |b.blocks| && |a.dset.dims| == |b.dset.dims|
    ensures InnerBlocks(IsRec(a.dset, a.blocks), a.blocks) == InnerBlocks(IsRec(b.dset, b.blocks), b.blocks)
  {
    hide EntryTail, TailBytes, ReadTail, Encodes;
    ShapeForced(cfg, a, b);
    assert EntryTail(cfg, a.dset, a.blocks) == EntryTail(cfg, b.dset, b.blocks);
    TailRead(cfg, a);
    TailRead(cfg, b);
  }
}
