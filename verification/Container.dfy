/** The block container on disk: a header and records, each sealed ideally for its header and place. */
module Container {
  import opened Bytes
  import opened Layout

  const MAX_HEADER: nat := 4096
  const FRAME: nat := 20
  const PREAMBLE: nat := 12

  datatype Reason = InvalidArgument | ChecksumMismatch | DataLoss

  type Result<T> = Outcome<T, Reason>

  datatype Sealed = Sealed(block: BlockRef, index: nat, data: seq<byte>)

  /** headerLength is what the header takes on disk. */
  datatype Object = Object(block: BlockRef, headerLength: nat, records: seq<Sealed>)

  function Lengths(records: seq<Sealed>): nat {
    if records == [] then 0 else Lengths(records[..|records| - 1]) + |records[|records| - 1].data|
  }

  function Datas(records: seq<Sealed>): seq<seq<byte>> {
    seq(|records|, i requires 0 <= i < |records| => records[i].data)
  }

  /** The bytes of the object: magic and header length, the header, and each record with its length and tag. */
  function Size(o: Object): nat {
    PREAMBLE + o.headerLength + Lengths(o.records) + FRAME * |o.records|
  }

  /** storage_cost: what is reserved for a block of this length. */
  function StorageCost(length: nat): nat {
    length + 4096 + FRAME * CeilDiv(length, CHUNK)
  }

  function Seal(block: BlockRef, chunks: seq<seq<byte>>): seq<Sealed> {
    seq(|chunks|, i requires 0 <= i < |chunks| => Sealed(block, i, chunks[i]))
  }

  lemma DatasNext(records: seq<Sealed>, r: Sealed)
    ensures Flatten(Datas(records + [r])) == Flatten(Datas(records)) + r.data
    ensures Lengths(records + [r]) == Lengths(records) + |r.data|
  {
    FlattenSnoc(Datas(records), r.data);
    assert Datas(records + [r]) == Datas(records) + [r.data];
    assert (records + [r])[..|records|] == records;
  }

  lemma {:induction false} FlattenLength(chunks: seq<seq<byte>>, i: nat)
    requires i <= |chunks|
    ensures |Flatten(chunks[..i])| <= |Flatten(chunks)|
  {
    assert chunks == chunks[..i] + chunks[i..];
    FlattenConcat(chunks[..i], chunks[i..]);
  }

  /** put: accepted exactly if the chunks spell the announced block; then they are sealed in order, and the object
      is as large as the block, its header and one frame for each chunk. */
  method Put(block: BlockRef, headerLength: nat, chunks: seq<seq<byte>>) returns (r: Result<Object>)
    ensures r.Ok? <==> Chunked(chunks) && |Flatten(chunks)| == block.size && Flatten(chunks) == block.plain
    ensures r.Ok? ==> r.value == Object(block, headerLength, Seal(block, chunks))
    ensures r.Ok? ==> Size(r.value) == PREAMBLE + headerLength + block.size + FRAME * |chunks|
  {
    var records, total, i := [], 0, 0;
    assert chunks[..0] == [];
    while i < |chunks|
      invariant 0 <= i <= |chunks| && records == Seal(block, chunks[..i]) && Chunked(chunks[..i])
      invariant Flatten(Datas(records)) == Flatten(chunks[..i]) && total == Lengths(records) == |Flatten(chunks[..i])| <= block.size
    {
      assert chunks[..i + 1] == chunks[..i] + [chunks[i]];
      FlattenSnoc(chunks[..i], chunks[i]);
      FlattenLength(chunks, i + 1);
      if !(0 < |chunks[i]| <= CHUNK && total + |chunks[i]| <= block.size) {
        return Err(InvalidArgument);
      }
      DatasNext(records, Sealed(block, i, chunks[i]));
      records, total := records + [Sealed(block, i, chunks[i])], total + |chunks[i]|;
      i := i + 1;
    }
    assert chunks[..i] == chunks;
    if !(total == block.size && Flatten(chunks) == block.plain) {
      return Err(ChecksumMismatch);
    }
    return Ok(Object(block, headerLength, records));
  }

  /** Chunks of full size take exactly what is reserved for them if the header has at most 4084 bytes. */
  lemma FullChunksFit(block: BlockRef, headerLength: nat, chunks: seq<seq<byte>>)
    requires Chunked(chunks) && Flatten(chunks) == block.plain && |block.plain| == block.size
    requires CutsAt(chunks, block.plain, CHUNK)
    ensures var o := Object(block, headerLength, Seal(block, chunks)); Size(o) <= StorageCost(block.size) <==> headerLength <= 4084
  {
    SealLengths(block, chunks, |chunks|);
    assert chunks[..|chunks|] == chunks;
    assert Seal(block, chunks)[..|chunks|] == Seal(block, chunks);
  }

  /** An object that put writes for a full-chunk stream: its header has a few hundred bytes, and never more than 4084. */
  ghost predicate MadeOf(o: Object, chunks: seq<seq<byte>>) {
    && o.headerLength <= 4084 && |o.block.plain| == o.block.size
    && CutsAt(chunks, o.block.plain, CHUNK) && o.records == Seal(o.block, chunks)
  }

  /** It fits what was reserved for its block. */
  lemma MadeFits(o: Object, chunks: seq<seq<byte>>)
    requires MadeOf(o, chunks)
    ensures Size(o) <= StorageCost(o.block.size)
  {
    CutsFlatten(chunks, o.block.plain, CHUNK);
    CutsChunked(chunks, o.block.plain);
    FullChunksFit(o.block, o.headerLength, chunks);
    assert o == Object(o.block, o.headerLength, Seal(o.block, chunks));
  }

  lemma CutsChunked(chunks: seq<seq<byte>>, plain: seq<byte>)
    requires CutsAt(chunks, plain, CHUNK)
    ensures Chunked(chunks)
  {
    CeilDivBounds(|plain|, CHUNK);
    forall i | 0 <= i < |chunks| ensures 0 < |chunks[i]| <= CHUNK {
      assert IsCut(chunks[i], plain, CHUNK, i) && Mul(i, CHUNK) < |plain|;
    }
  }

  lemma {:induction false} SealLengths(block: BlockRef, chunks: seq<seq<byte>>, m: nat)
    requires m <= |chunks|
    ensures Lengths(Seal(block, chunks)[..m]) == |Flatten(chunks[..m])|
  {
    if m > 0 {
      SealLengths(block, chunks, m - 1);
      var all := Seal(block, chunks);
      assert all[..m][..m - 1] == all[..m - 1];
      assert chunks[..m] == chunks[..m - 1] + [chunks[m - 1]];
      FlattenSnoc(chunks[..m - 1], chunks[m - 1]);
    }
  }

  /** Every record opens: it was sealed under this object's header, for the place where it stands. */
  predicate Opens(o: Object, n: nat)
    requires n <= |o.records|
  {
    forall i :: 0 <= i < n ==> o.records[i].block == o.block && o.records[i].index == i && 0 < |o.records[i].data| <= CHUNK
  }

  /** The object spells the block that its header names. */
  predicate Readable(o: Object) {
    && 0 < o.headerLength <= MAX_HEADER && Opens(o, |o.records|)
    && |Flatten(Datas(o.records))| == o.block.size && Flatten(Datas(o.records)) == o.block.plain
  }

  method OpenAll(o: Object) returns (ok: bool, plain: seq<seq<byte>>, total: nat)
    ensures ok <==> Opens(o, |o.records|)
    ensures ok ==> plain == Datas(o.records) && Chunked(plain) && total == |Flatten(plain)|
  {
    plain, total, ok := [], 0, true;
    var i := 0;
    assert o.records[..0] == [] && Flatten(Datas([])) == [];
    while i < |o.records|
      invariant 0 <= i <= |o.records| && Opens(o, i)
      invariant plain == Datas(o.records[..i]) && total == |Flatten(plain)| && Chunked(plain)
    {
      var record := o.records[i];
      if !(record.block == o.block && record.index == i && 0 < |record.data| <= CHUNK) {
        ok := false;
        return;
      }
      assert o.records[..i + 1] == o.records[..i] + [record];
      DatasNext(o.records[..i], record);
      plain, total := plain + [record.data], total + |record.data|;
      i := i + 1;
    }
    assert o.records[..i] == o.records;
  }

  /** read_verified: it yields the records exactly if all of them open, and together are the block that was asked
      for; nothing is yielded of an object that is not. */
  method ReadVerified(o: Object, block: BlockRef) returns (r: Result<seq<seq<byte>>>)
    ensures r.Ok? <==> o.block == block && Readable(o)
    ensures r.Ok? ==> Flatten(r.value) == block.plain && Chunked(r.value)
    ensures r.Err? ==> r.reason == DataLoss
  {
    if !(0 < o.headerLength <= MAX_HEADER && o.block == block) {
      return Err(DataLoss);
    }
    var ok, plain, total := OpenAll(o);
    if !(ok && total == block.size && Flatten(plain) == block.plain) {
      return Err(DataLoss);
    }
    return Ok(plain);
  }

  /** What is put can be read: the very chunks, unless the header is longer than a reader accepts. */
  lemma PutThenRead(block: BlockRef, headerLength: nat, chunks: seq<seq<byte>>)
    requires Chunked(chunks) && |Flatten(chunks)| == block.size && Flatten(chunks) == block.plain
    ensures var o := Object(block, headerLength, Seal(block, chunks));
      && Opens(o, |o.records|) && Datas(o.records) == chunks
      && (0 < headerLength <= MAX_HEADER ==> Readable(o))
  {
    assert Datas(Seal(block, chunks)) == chunks;
  }
}
