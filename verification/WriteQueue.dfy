/** The write call on one process's request queue. */
module WriteQueue {
  import opened Radix
  import opened Bytes
  import opened MetaCodec
  import opened EntryCodec
  import opened Dedup
  import opened Stream
  import opened DedupHits
  import opened EntryLayout
  import opened RequestBuffer

  /** Looks a request up among those entered in the hash table, in whatever order the table keeps them. */
  method Find(q: Queue, r: Req) returns (hit: Option<nat>)
    requires forall t :: t in q.table ==> t < |q.reqs|
    ensures Found(q, r, hit)
    ensures hit.None? ==> forall t :: t in q.table ==> !MayEqual(r, q.reqs[t])
  {
    var todo := q.table;
    while todo != {}
      invariant todo <= q.table && forall t :: t in q.table && t !in todo ==> !MayEqual(r, q.reqs[t])
      decreases |todo|
    {
      var t :| t in todo;
      if MayEqual(r, q.reqs[t]) { return Some(t); }
      todo := todo - {t};
    }
    hit := None;
  }

  /** Lookup and, on a hit, replacement of the selection; a miss asks for the request to be entered. */
  method Deduplicate(share: bool, q: Queue, r: Req) returns (s: Req, entered: bool, hit: Option<nat>)
    requires r.metaOff == q.mdsize && forall t :: t in q.table ==> t < |q.reqs| && Fits64(q.reqs[t].metaOff - q.mdsize)
    ensures Found(q, r, hit) && entered == (Shared(share, r) && hit.None?) && (hit.Some? ==> hit.value < |q.reqs|)
    ensures hit.Some? ==> Shared(share, r) && Fits64(q.reqs[hit.value].metaOff - q.mdsize) && s == Refer(r, q.reqs[hit.value])
    ensures hit.None? ==> s == r && (Shared(share, r) ==> forall t :: t in q.table ==> !MayEqual(r, q.reqs[t]))
  {
    s, entered, hit := r, false, None;
    if share && |r.sel| > WORD {
      hit := Find(q, r);
      if hit.None? {
        entered := true;
      } else {
        s := Refer(r, q.reqs[hit.value]);
      }
    }
  }

  /** The guard of a write: no stored request compares equal that a reference could not stand for. */
  ghost predicate NoFalseHit(cfg: bool, q: Queue, ws: seq<Write>, w: Write)
    requires WriteOk(cfg, w)
  {
    forall t :: t in q.table ==>
      t < |ws| && t < |q.reqs| && WriteOk(cfg, ws[t]) && (MayEqual(NewReq(cfg, w, q.mdsize, 0), q.reqs[t]) ==> Faithful(cfg, w, ws[t]))
  }

  lemma Ready(cfg: bool, share: bool, q: Queue, ws: seq<Write>, w: Write)
    requires Stored(cfg, share, q, ws) && Fits64(q.mdsize) && WriteOk(cfg, w)
    ensures |q.reqs| == |ws| && NewReq(cfg, w, q.mdsize, 0).metaOff == q.mdsize && NewReq(cfg, w, q.mdsize, 0).hdr.metaSize >= 0
    ensures forall t :: t in q.table ==> t < |q.reqs| && Fits64(q.reqs[t].metaOff - q.mdsize)
  {
    hide WriteOk, HdrFits, EntryTail, Stored;
    StoredFacts(cfg, share, q, ws);
    forall t | t in q.table ensures t < |q.reqs| && Fits64(q.reqs[t].metaOff - q.mdsize)
    {
      assert Plain(cfg, q, ws, t);
      HitInRange(cfg, share, q, ws, t);
    }
  }

  lemma HitIsKnown(cfg: bool, share: bool, q: Queue, ws: seq<Write>, w: Write, hit: Option<nat>)
    requires Stored(cfg, share, q, ws) && WriteOk(cfg, w) && Fits64(q.mdsize) && Found(q, NewReq(cfg, w, q.mdsize, 0), hit)
    requires hit.Some? ==> Shared(share, NewReq(cfg, w, q.mdsize, 0))
    ensures hit.Some? ==> share && hit.value < |ws| && WriteOk(cfg, ws[hit.value]) && DedupHits.Hits(cfg, q, ws, w, hit.value)
  {
    hide WriteOk, NewReq, Stored, MayEqual;
    StoredFacts(cfg, share, q, ws);
    if hit.Some? { assert Plain(cfg, q, ws, hit.value); }
  }

  /** Some request kept in full, with a selection longer than a reference, compares equal. */
  ghost predicate HasEqual(q: Queue, r: Req)
  {
    exists t :: 0 <= t < |q.reqs| && LongInFull(q.reqs[t]) && MayEqual(r, q.reqs[t])
  }

  /** What is appended for request r: a reference, of the size of one, if sharing is on, the selection is longer than a
      reference and an equal request is kept in full anywhere in the queue; otherwise r itself. */
  ghost predicate Entered(share: bool, q: Queue, r: Req, s: Req)
  {
    if share && |r.sel| > 8 && HasEqual(q, r) then s.hdr.flag.ref && s.hdr.metaSize == (if s.hdr.flag.rec then 44 else 36)
    else s == r && !s.hdr.flag.ref
  }

  /** With the whole table searched, an equal request is found wherever it stands in the queue. */
  lemma EqualIsHit(q: Queue, r: Req, hit: Option<nat>)
    requires TableHolds(true, q) && Found(q, r, hit)
    requires hit.None? ==> forall t :: t in q.table ==> !MayEqual(r, q.reqs[t])
    ensures hit.Some? <==> HasEqual(q, r)
  {
    hide MayEqual, LongInFull;
    if HasEqual(q, r) {
      var t :| 0 <= t < |q.reqs| && LongInFull(q.reqs[t]) && MayEqual(r, q.reqs[t]);
      assert t in q.table;
    }
    if hit.Some? { assert LongInFull(q.reqs[hit.value]); }
  }

  /** How large the entry of a reference is. */
  lemma ReferenceSize(r: Req, t: Req)
    requires Fits64(t.metaOff - r.metaOff)
    ensures var s := Refer(r, t); s.hdr.flag.ref && s.hdr.metaSize == if s.hdr.flag.rec then 44 else 36
  {
  }

  /** Encode, deduplicate, append. The queue still records all writes, and so is read back as them, exactly if the hit,
      if there was one, may stand in for the write. The table goes on holding every long request kept in full, so that
      a write that compares equal to any of them is stored as a reference, and another one in full. */
  method Enter(cfg: bool, share: bool, q: Queue, ghost ws: seq<Write>, w: Write, dsteps: seq<nat>) returns (q': Queue, hit: Option<nat>)
    requires Stored(cfg, share, q, ws) && Fits64(q.mdsize) && WriteOk(cfg, w) && (cfg ==> dsteps == Dsteps(w.dset.dims))
    ensures Found(q, NewReq(cfg, w, q.mdsize, 0), hit) && (hit.Some? ==> Fits64(q.reqs[hit.value].metaOff - q.mdsize))
    ensures hit.Some? ==> Shared(share, NewReq(cfg, w, q.mdsize, 0)) && hit.value < |ws| && WriteOk(cfg, ws[hit.value])
    ensures q' == Enqueue(cfg, share, q, w, hit)
    ensures Stored(cfg, share, q', ws + [w]) <==> (hit.Some? ==> Faithful(cfg, w, ws[hit.value]))
    ensures |q'.reqs| == |q.reqs| + 1 && q'.reqs[..|q.reqs|] == q.reqs && q.table <= q'.table && TableHolds(share, q')
    ensures Entered(share, q, NewReq(cfg, w, q.mdsize, 0), q'.reqs[|q.reqs|])
  {
    hide WriteOk, NewReq, Refer, Faithful, Stored, HdrFits, ReqFits, MayEqual, Shared, TableHolds, HasEqual, Entered, Laid, FlaggedFor, Enqueue, Found;
    Ready(cfg, share, q, ws, w);
    var r, buf := BuildRequest(cfg, w, dsteps, q.mdsize);
    var s, entered;
    s, entered, hit := Deduplicate(share, q, r);
    Outcome(cfg, share, q, ws, w, r, s, entered, hit);
    q' := Queue(q.reqs + [s], q.mdsize + s.hdr.metaSize, if entered then q.table + {|q.reqs|} else q.table);
  }

  /** What the lookup decided, put together. */
  lemma Outcome(cfg: bool, share: bool, q: Queue, ws: seq<Write>, w: Write, r: Req, s: Req, entered: bool, hit: Option<nat>)
    requires Stored(cfg, share, q, ws) && Fits64(q.mdsize) && WriteOk(cfg, w) && r == NewReq(cfg, w, q.mdsize, 0) && r.metaOff == q.mdsize
    requires Found(q, r, hit) && entered == (Shared(share, r) && hit.None?) && (hit.Some? ==> hit.value < |q.reqs|)
    requires hit.Some? ==> Shared(share, r) && Fits64(q.reqs[hit.value].metaOff - q.mdsize) && s == Refer(r, q.reqs[hit.value])
    requires hit.None? ==> s == r && (Shared(share, r) ==> forall t :: t in q.table ==> !MayEqual(r, q.reqs[t]))
    ensures hit.Some? ==> hit.value < |ws| && WriteOk(cfg, ws[hit.value])
    ensures s.hdr.metaSize >= 0
    ensures var q' := Queue(q.reqs + [s], q.mdsize + s.hdr.metaSize, if entered then q.table + {|q.reqs|} else q.table);
            q' == Enqueue(cfg, share, q, w, hit) && TableHolds(share, q') && Entered(share, q, r, s) &&
            (Stored(cfg, share, q', ws + [w]) <==> (hit.Some? ==> Faithful(cfg, w, ws[hit.value])))
  {
    hide WriteOk, NewReq, Refer, Faithful, Plain, Stored, Found, HdrFits, ReqFits, MayEqual, Shared, TableHolds, HasEqual, Entered, Enqueue,
         Recorded, Chain;
    StoredFacts(cfg, share, q, ws);
    RightlyEntered(cfg, share, q, w, r, s, entered, hit);
    IsEnqueue(cfg, share, q, w, r, s, entered, hit);
    StoredExactly(cfg, share, q, ws, w, hit);
  }

  lemma StoredExactly(cfg: bool, share: bool, q: Queue, ws: seq<Write>, w: Write, hit: Option<nat>)
    requires Stored(cfg, share, q, ws) && Fits64(q.mdsize) && WriteOk(cfg, w) && Found(q, NewReq(cfg, w, q.mdsize, 0), hit)
    requires hit.Some? ==> Shared(share, NewReq(cfg, w, q.mdsize, 0)) && hit.value < |q.reqs| && Fits64(q.reqs[hit.value].metaOff - q.mdsize)
    ensures hit.Some? ==> hit.value < |ws| && WriteOk(cfg, ws[hit.value])
    ensures Stored(cfg, share, Enqueue(cfg, share, q, w, hit), ws + [w]) <==> (hit.Some? ==> Faithful(cfg, w, ws[hit.value]))
  {
    hide WriteOk, NewReq, Refer, Faithful, Plain, Stored, HdrFits, ReqFits, MayEqual, Shared;
    HitIsKnown(cfg, share, q, ws, w, hit);
    if hit.None? { EnqueueKeeps(cfg, share, q, ws, w, hit); } else { HitStored(cfg, q, ws, w, hit.value); }
  }

  lemma RightlyEntered(cfg: bool, share: bool, q: Queue, w: Write, r: Req, s: Req, entered: bool, hit: Option<nat>)
    requires WriteOk(cfg, w) && r == NewReq(cfg, w, q.mdsize, 0) && TableHolds(share, q) && Found(q, r, hit)
    requires entered == (Shared(share, r) && hit.None?) && (hit.Some? ==> Shared(share, r) && Fits64(q.reqs[hit.value].metaOff - r.metaOff))
    requires if hit.Some? then s == Refer(r, q.reqs[hit.value]) else s == r
    requires hit.None? && Shared(share, r) ==> forall t :: t in q.table ==> !MayEqual(r, q.reqs[t])
    ensures s.hdr.metaSize >= 0 && TableHolds(share, Queued(q, s, entered))
    ensures Entered(share, q, r, s)
  {
    hide WriteOk, NewReq, Refer, MayEqual, TableHolds, HasEqual;
    NewFacts(cfg, w, q.mdsize, 0);
    SizeFacts(cfg, w, q.mdsize);
    if Shared(share, r) { EqualIsHit(q, r, hit); }
    if hit.Some? { ReferenceSize(r, q.reqs[hit.value]); }
    TableGrows(share, q, s, entered);
  }

  lemma IsEnqueue(cfg: bool, share: bool, q: Queue, w: Write, r: Req, s: Req, entered: bool, hit: Option<nat>)
    requires WriteOk(cfg, w) && r == NewReq(cfg, w, q.mdsize, 0) && Found(q, r, hit) && s.hdr.metaSize >= 0 && r.metaOff == q.mdsize
    requires entered == (Shared(share, r) && hit.None?) && (hit.Some? ==> Shared(share, r) && Fits64(q.reqs[hit.value].metaOff - q.mdsize))
    requires if hit.Some? then s == Refer(r, q.reqs[hit.value]) else s == r
    ensures Enqueue(cfg, share, q, w, hit) == Queue(q.reqs + [s], q.mdsize + s.hdr.metaSize, if entered then q.table + {|q.reqs|} else q.table)
  {
    hide WriteOk, NewReq, Refer, MayEqual, Shared;
  }

  lemma SizeFacts(cfg: bool, w: Write, off: nat)
    requires WriteOk(cfg, w)
    ensures NewReq(cfg, w, off, 0).hdr.metaSize >= 0
  {
    hide EntryTail;
  }

  /** Under the guard every hit may stand in. */
  lemma GuardedHit(cfg: bool, share: bool, q: Queue, ws: seq<Write>, w: Write, hit: Option<nat>)
    requires WriteOk(cfg, w) && Fits64(q.mdsize) && NoFalseHit(cfg, q, ws, w) && Found(q, NewReq(cfg, w, q.mdsize, 0), hit)
    ensures Admissible(cfg, share, q, ws, w, hit)
  {
    hide WriteOk, NewReq, Faithful, MayEqual;
  }
}
