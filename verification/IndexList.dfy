/** The list index: parsing of metadata blocks with a cache for referenced entries, and search. */
module IndexList {
  import opened Grid
  import opened Bytes
  import opened MetaCodec
  import opened EntryCodec

  /** Selections of the entries parsed so far, by position in the buffer. */
  type Cache = map<int, seq<Sel>>

  predicate NoScalars(sels: seq<Sel>) { forall i :: 0 <= i < |sels| ==> |sels[i].start| == |sels[i].count| > 0 }

  predicate Recordable(sels: seq<Sel>) { sels != [] && NoScalars(sels) }

  /** The selections moved to another record. */
  function Overwrite(recnum: nat, sels: seq<Sel>): (r: seq<Sel>)
    requires Recordable(sels)
    ensures |r| == |sels|
  {
    seq(|sels|, i requires 0 <= i < |sels| => Sel(sels[i].start[0 := recnum], sels[i].count[0 := 1], sels[i].doff))
  }

  /** A reference entry: the selections of the entry it points back to, in this entry's record if it has one. */
  function RefDecode(buf: seq<byte>, p: nat, cache: Cache): (r: Option<Entry>)
  {
    if p + HDRSIZE > |buf| then None else
      var h := GetHdr(buf, p);
      var rec := h.flag.rec;
      var q := p + HDRSIZE;
      if h.metaSize <= 0 || q + (if rec then 16 else 8) > |buf| then None else
        var from := p + Get64(buf, if rec then q + 8 else q);
        if from !in cache || cache[from] == [] then None
        else if !rec then Some(Entry(h, cache[from]))
        else if !Recordable(cache[from]) || Get64(buf, q) < 0 then None
        else Some(Entry(h, Overwrite(Get64(buf, q), cache[from])))
  }

  predicate IsRef(share: bool, h: Hdr) { share && h.flag.ref }

  /** The entry at position p. */
  function Step(share: bool, dsets: seq<Dset>, buf: seq<byte>, p: nat, cache: Cache): (r: Option<Entry>)
    ensures r.Some? ==> p + HDRSIZE <= |buf| && r.value.hdr == GetHdr(buf, p)
    ensures r.Some? ==> r.value.hdr.metaSize > 0 && 0 <= r.value.hdr.did < |dsets|
  {
    if p + HDRSIZE > |buf| || !(0 <= GetHdr(buf, p).did < |dsets|) then None
    else if IsRef(share, GetHdr(buf, p)) then RefDecode(buf, p, cache)
    else DecodeEntry(dsets[GetHdr(buf, p).did], buf, p)
  }

  function Remember(share: bool, p: nat, e: Entry, cache: Cache): Cache
  {
    if IsRef(share, e.hdr) then cache else cache[p := e.sels]
  }

  /** All entries from position p to `end`, in order; None if the program stops with an error. */
  function ParseList(share: bool, dsets: seq<Dset>, buf: seq<byte>, p: nat, end: nat, cache: Cache): (r: Option<seq<Entry>>)
    decreases end - p
  {
    if p >= end then Some([]) else
      match Step(share, dsets, buf, p, cache)
      case None => None
      case Some(e) => Push(e, ParseList(share, dsets, buf, p + e.hdr.metaSize, end, Remember(share, p, e, cache)))
  }

  function Push(e: Entry, r: Option<seq<Entry>>): Option<seq<Entry>>
  {
    match r case None => None case Some(es) => Some([e] + es)
  }

  function Append(es: seq<Entry>, r: Option<seq<Entry>>): Option<seq<Entry>>
  {
    match r case None => None case Some(t) => Some(es + t)
  }
}
