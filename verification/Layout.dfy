/** A file as a manifest of blocks, and a write as a list of block parts. */
module Layout {
  import opened Bytes

  type Id = nat

  /** The version of a block that does not exist yet. */
  const ABSENT: Id := 0

  /** plain is what plaintext_sha256 fixes: hashing is ideal, so a digest and the bytes it was taken of
      stand for each other. */
  datatype BlockRef = BlockRef(file: Id, version: Id, index: nat, size: nat, plain: seq<byte>)

  /** One block's share of a write. */
  datatype Part = Part(index: nat, blockOffset: nat, deltaOffset: nat, length: nat)

  /** b is made to be block i of a file of total bytes. */
  predicate Sized(b: BlockRef, i: nat, size: nat, total: nat) {
    b.index == i && b.size == Min(size, total - Mul(i, size))
  }

  ghost predicate Fits(b: BlockRef, i: nat, size: nat, total: nat) {
    Sized(b, i, size, total) && |b.plain| == b.size
  }

  /** Block i has index i, all blocks but the last are full, and the sizes add up to total. */
  ghost predicate WellFormed(blocks: seq<BlockRef>, size: nat, total: nat)
  {
    && size > 0
    && |blocks| == CeilDiv(total, size)
    && forall i {:trigger Fits(blocks[i], i, size, total)} :: 0 <= i < |blocks| ==> Fits(blocks[i], i, size, total)
  }

  function Plains(blocks: seq<BlockRef>): seq<seq<byte>> {
    seq(|blocks|, i requires 0 <= i < |blocks| => blocks[i].plain)
  }

  /** The bytes a manifest stands for. */
  function Content(blocks: seq<BlockRef>): seq<byte> {
    Flatten(Plains(blocks))
  }

  function Sizes(blocks: seq<BlockRef>): nat {
    if blocks == [] then 0 else Sizes(blocks[..|blocks| - 1]) + blocks[|blocks| - 1].size
  }

  function BlockAt(blocks: seq<BlockRef>, index: nat, file: Id): BlockRef {
    if index < |blocks| then blocks[index] else BlockRef(file, ABSENT, index, 0, [])
  }

  lemma ContentConcat(a: seq<BlockRef>, b: seq<BlockRef>)
    ensures Content(a + b) == Content(a) + Content(b)
  {
    FlattenConcat(Plains(a), Plains(b));
    assert Plains(a + b) == Plains(a) + Plains(b);
  }

  lemma ContentOne(b: BlockRef)
    ensures Content([b]) == b.plain
  {
    assert Plains([b]) == [b.plain];
    assert Flatten([b.plain]) == b.plain;
  }

  lemma SnocLength(blocks: seq<BlockRef>, k: nat)
    requires k < |blocks|
    ensures |Content(blocks[..k + 1])| == |Content(blocks[..k])| + |blocks[k].plain|
    ensures Sizes(blocks[..k + 1]) == Sizes(blocks[..k]) + blocks[k].size
  {
    assert blocks[..k + 1] == blocks[..k] + [blocks[k]];
    ContentConcat(blocks[..k], [blocks[k]]);
    ContentOne(blocks[k]);
    assert blocks[..k + 1][..k] == blocks[..k];
  }

  lemma {:induction false} PrefixSizes(blocks: seq<BlockRef>, size: nat, total: nat, m: nat)
    requires size > 0 && m <= |blocks| == CeilDiv(total, size)
    requires forall i {:trigger blocks[i]} :: 0 <= i < |blocks| ==> Sized(blocks[i], i, size, total)
    ensures Sizes(blocks[..m]) == Min(Mul(m, size), total)
  {
    CeilDivBounds(total, size);
    if m > 0 {
      var k := m - 1;
      PrefixSizes(blocks, size, total, k);
      SnocLength(blocks, k);
      assert Sized(blocks[k], k, size, total) && Mul(k, size) < total;
      assert Mul(m, size) == Mul(k, size) + size;
    }
  }

  lemma {:induction false} PrefixLength(blocks: seq<BlockRef>, size: nat, total: nat, m: nat)
    requires WellFormed(blocks, size, total) && m <= |blocks|
    ensures |Content(blocks[..m])| == Min(Mul(m, size), total) == Sizes(blocks[..m])
  {
    CeilDivBounds(total, size);
    if m > 0 {
      var k := m - 1;
      PrefixLength(blocks, size, total, k);
      SnocLength(blocks, k);
      assert Fits(blocks[k], k, size, total);
      assert Mul(m, size) == Mul(k, size) + size;
    }
  }

  /** A well formed manifest spells total bytes; block i spells the bytes from Mul(i, size) on. */
  lemma ContentBlock(blocks: seq<BlockRef>, size: nat, total: nat, i: nat)
    requires WellFormed(blocks, size, total)
    ensures |Content(blocks)| == total == Sizes(blocks)
    ensures i < |blocks| ==>
      Mul(i, size) + blocks[i].size <= total && Content(blocks)[Mul(i, size)..Mul(i, size) + blocks[i].size] == blocks[i].plain
  {
    CeilDivBounds(total, size);
    PrefixLength(blocks, size, total, |blocks|);
    assert blocks[..|blocks|] == blocks;
    if i < |blocks| {
      assert Fits(blocks[i], i, size, total);
      PrefixLength(blocks, size, total, i);
      assert blocks == (blocks[..i] + [blocks[i]]) + blocks[i + 1..];
      ContentConcat(blocks[..i] + [blocks[i]], blocks[i + 1..]);
      ContentConcat(blocks[..i], [blocks[i]]);
      ContentOne(blocks[i]);
    }
  }

  lemma ContentAt(blocks: seq<BlockRef>, size: nat, total: nat, k: nat)
    requires WellFormed(blocks, size, total) && k < total
    ensures |Content(blocks)| == total
    ensures Div(k, size) < |blocks| && Mod(k, size) < |blocks[Div(k, size)].plain|
    ensures Content(blocks)[k] == blocks[Div(k, size)].plain[Mod(k, size)]
  {
    var i := Div(k, size);
    DivSplit(k, size);
    CeilDivBounds(total, size);
    ContentBlock(blocks, size, total, i);
    assert Fits(blocks[i], i, size, total);
    assert Content(blocks)[Mul(i, size)..Mul(i, size) + blocks[i].size][Mod(k, size)] == Content(blocks)[k];
  }

  // ---------------------------------------------------------------- splitting a write

  function PartCount(offset: nat, length: nat, size: nat): nat
    requires size > 0
  {
    if length == 0 then 0 else CeilDiv(offset + length, size) - Min(Div(offset, size), CeilDiv(offset + length, size))
  }

  /** The j-th part: what the range shares with block Div(offset, size) + j. */
  function PartAt(offset: nat, length: nat, size: nat, j: nat): Part
    requires size > 0 && j < PartCount(offset, length, size)
  {
    var index := Div(offset, size) + j;
    var low, high := Max(offset, Mul(index, size)), Min(offset + length, Mul(index, size) + size);
    PartBounds(offset, length, size, j);
    Part(index, low - Mul(index, size), low - offset, high - low)
  }

  function Split(offset: nat, length: nat, size: nat): seq<Part>
    requires size > 0
  {
    seq(PartCount(offset, length, size), j requires 0 <= j < PartCount(offset, length, size) => PartAt(offset, length, size, j))
  }

  lemma PartBounds(offset: nat, length: nat, size: nat, j: nat)
    requires size > 0 && j < PartCount(offset, length, size)
    ensures var index := Div(offset, size) + j;
            var low, high := Max(offset, Mul(index, size)), Min(offset + length, Mul(index, size) + size);
            Mul(index, size) <= low < high <= Mul(index, size) + size && offset <= low && high <= offset + length
    ensures j > 0 ==> Mul(Div(offset, size) + j, size) > offset
  {
    var index := Div(offset, size) + j;
    DivSplit(offset, size);
    CeilDivBounds(offset + length, size);
    assert index < CeilDiv(offset + length, size);
    MulMonotone(Div(offset, size), index, size);
  }

  /** The parts of a nonempty range start at its first block and end at its last one. */
  lemma PartRange(offset: nat, length: nat, size: nat)
    requires size > 0 && length > 0
    ensures PartCount(offset, length, size) > 0
    ensures Div(offset, size) + PartCount(offset, length, size) == CeilDiv(offset + length, size)
  {
    CeilDivBounds(offset + length, size);
    DivSplit(offset, size);
  }

  // ---------------------------------------------------------------- copy on write

  /** blocks with replacements put from index first on, the list growing only at its end. */
  function Patched(blocks: seq<BlockRef>, first: nat, replacements: seq<BlockRef>): seq<BlockRef>
    requires first <= |blocks|
  {
    seq(Max(|blocks|, first + |replacements|), i requires 0 <= i < Max(|blocks|, first + |replacements|) =>
      if first <= i < first + |replacements| then replacements[i - first] else blocks[i])
  }

  /** The replacement of part p is its base with the part's bytes of delta written over it. */
  ghost predicate Replaces(r: BlockRef, base: BlockRef, p: Part, delta: seq<byte>)
  {
    && p.deltaOffset + p.length <= |delta|
    && p.blockOffset <= |base.plain| == base.size
    && r.file == base.file
    && r.index == p.index
    && r.size == Max(base.size, p.blockOffset + p.length)
    && r.plain == Splice(base.plain, p.blockOffset, delta[p.deltaOffset..p.deltaOffset + p.length])
  }

  ghost predicate ReplacesAll(replacements: seq<BlockRef>, blocks: seq<BlockRef>, file: Id, offset: nat, delta: seq<byte>, size: nat)
    requires size > 0
  {
    && |replacements| == PartCount(offset, |delta|, size)
    && forall j {:trigger replacements[j]} :: 0 <= j < |replacements| ==>
         Replaces(replacements[j], BlockAt(blocks, Div(offset, size) + j, file), PartAt(offset, |delta|, size, j), delta)
  }

  /** Block at byte position at, before and after the write, in whole numbers only. */
  lemma PieceSize(at: int, size: nat, total: nat, offset: nat, end: nat)
    requires size > 0 && offset <= total && at < end && offset < at + size && offset < end
    ensures var base := if at < total then Min(size, total - at) else 0;
            && Max(offset, at) - at <= base
            && Max(base, Min(end, at + size) - at) == Min(size, Max(total, end) - at)
  {
  }

  lemma PatchedAt(blocks: seq<BlockRef>, first: nat, replacements: seq<BlockRef>, i: nat)
    requires first <= |blocks| && i < |Patched(blocks, first, replacements)|
    ensures first <= i < first + |replacements| ==> Patched(blocks, first, replacements)[i] == replacements[i - first]
    ensures !(first <= i < first + |replacements|) ==> i < |blocks| && Patched(blocks, first, replacements)[i] == blocks[i]
  {
  }

  lemma PatchedBlock(blocks: seq<BlockRef>, patched: seq<BlockRef>, file: Id, offset: nat, delta: seq<byte>, size: nat, total: nat, total': nat, replacements: seq<BlockRef>, first: nat, i: nat)
    requires WellFormed(blocks, size, total) && offset <= total && |delta| > 0
    requires ReplacesAll(replacements, blocks, file, offset, delta, size)
    requires first == Div(offset, size) <= |blocks| && patched == Patched(blocks, first, replacements)
    requires total' == Max(total, offset + |delta|) && i < |patched|
    ensures Fits(patched[i], i, size, total')
  {
    PatchedAt(blocks, first, replacements, i);
    if first <= i < first + |replacements| {
      TouchedBlock(blocks, file, offset, delta, size, total, replacements, i - first, i, total');
    } else {
      KeptBlock(blocks, offset, |delta|, size, total, i, total');
    }
  }

  lemma KeptBlock(blocks: seq<BlockRef>, offset: nat, length: nat, size: nat, total: nat, i: nat, total': nat)
    requires WellFormed(blocks, size, total) && offset <= total && length > 0 && i < |blocks|
    requires !(Div(offset, size) <= i < Div(offset, size) + PartCount(offset, length, size))
    requires total' == Max(total, offset + length)
    ensures Fits(blocks[i], i, size, total')
  {
    PartRange(offset, length, size);
    UntouchedBlock(size, total, offset, length, i);
    assert Fits(blocks[i], i, size, total);
  }

  lemma TouchedBlock(blocks: seq<BlockRef>, file: Id, offset: nat, delta: seq<byte>, size: nat, total: nat, replacements: seq<BlockRef>, j: nat, i: nat, total': nat)
    requires WellFormed(blocks, size, total) && offset <= total && |delta| > 0
    requires ReplacesAll(replacements, blocks, file, offset, delta, size)
    requires j < |replacements| && i == Div(offset, size) + j && total' == Max(total, offset + |delta|)
    ensures Fits(replacements[j], i, size, total')
  {
    var p, base, at := PartAt(offset, |delta|, size, j), BlockAt(blocks, i, file), Mul(i, size);
    PartShares(offset, |delta|, size, j, p, at);
    PartBounds(offset, |delta|, size, j);
    BaseSize(blocks, file, size, total, i);
    assert Replaces(replacements[j], base, p, delta);
    ReplacedSize(replacements[j], base, p, delta, offset, size, total, total', i, at);
  }

  lemma ReplacedSize(r: BlockRef, base: BlockRef, p: Part, delta: seq<byte>, offset: nat, size: nat, total: nat, total': nat, i: nat, at: nat)
    requires Replaces(r, base, p, delta) && p.index == i && at == Mul(i, size)
    requires Shares(p, offset, offset + |delta|, at, size)
    requires size > 0 && offset <= total && total' == Max(total, offset + |delta|) && |delta| > 0 && at < offset + |delta| && offset < at + size
    requires base.size == if at < total then Min(size, total - at) else 0
    ensures Fits(r, i, size, total')
  {
    PieceSize(at, size, total, offset, offset + |delta|);
  }

  lemma BaseSize(blocks: seq<BlockRef>, file: Id, size: nat, total: nat, i: nat)
    requires WellFormed(blocks, size, total)
    ensures BlockAt(blocks, i, file).size == if Mul(i, size) < total then Min(size, total - Mul(i, size)) else 0
  {
    CeilDivBounds(total, size);
    assert i < |blocks| ==> Fits(blocks[i], i, size, total);
  }

  lemma UntouchedBlock(size: nat, total: nat, offset: nat, length: nat, i: nat)
    requires size > 0 && offset <= total && length > 0
    requires i < Div(offset, size) || CeilDiv(offset + length, size) <= i < CeilDiv(total, size)
    ensures Min(size, total - Mul(i, size)) == Min(size, Max(total, offset + length) - Mul(i, size))
  {
    DivSplit(offset, size);
    CeilDivBounds(total, size);
    CeilDivBounds(offset + length, size);
    if i < Div(offset, size) {
      MulMonotone(i, Div(offset, size), size);
    }
  }

  lemma FirstPart(blocks: seq<BlockRef>, size: nat, total: nat, offset: nat)
    requires WellFormed(blocks, size, total) && offset <= total
    ensures Div(offset, size) <= |blocks|
  {
    DivSplit(offset, size);
    CeilDivBounds(total, size);
  }

  /** Copy-on-write publication refines a plain splice: patching the touched blocks of a well formed manifest
      gives a well formed manifest whose bytes are the old bytes with delta written at offset. */
  lemma PatchIsSplice(blocks: seq<BlockRef>, file: Id, offset: nat, delta: seq<byte>, size: nat, total: nat, replacements: seq<BlockRef>)
    requires WellFormed(blocks, size, total) && offset <= total && |delta| > 0
    requires ReplacesAll(replacements, blocks, file, offset, delta, size)
    ensures Div(offset, size) <= |blocks| && |Content(blocks)| == total
    ensures var patched := Patched(blocks, Div(offset, size), replacements);
            && WellFormed(patched, size, Max(total, offset + |delta|))
            && Content(patched) == Splice(Content(blocks), offset, delta)
  {
    FirstPart(blocks, size, total, offset);
    var first, total' := Div(offset, size), Max(total, offset + |delta|);
    var patched := Patched(blocks, first, replacements);
    CeilDivBounds(total, size);
    CeilDivBounds(offset + |delta|, size);
    CeilDivBounds(total', size);
    PartRange(offset, |delta|, size);
    forall i | 0 <= i < |patched|
      ensures Fits(patched[i], i, size, total')
    {
      PatchedBlock(blocks, patched, file, offset, delta, size, total, total', replacements, first, i);
    }
    ContentBlock(blocks, size, total, 0);
    ContentBlock(patched, size, total', 0);
    forall k | 0 <= k < total'
      ensures Content(patched)[k] == Splice(Content(blocks), offset, delta)[k]
    {
      ContentAt(patched, size, total', k);
      PatchedByte(blocks, patched, file, offset, delta, size, total, replacements, k);
    }
  }

  lemma PatchedByte(blocks: seq<BlockRef>, patched: seq<BlockRef>, file: Id, offset: nat, delta: seq<byte>, size: nat, total: nat, replacements: seq<BlockRef>, k: nat)
    requires WellFormed(blocks, size, total) && offset <= total && |delta| > 0
    requires ReplacesAll(replacements, blocks, file, offset, delta, size)
    requires Div(offset, size) <= |blocks| && patched == Patched(blocks, Div(offset, size), replacements)
    requires k < Max(total, offset + |delta|) && Div(k, size) < |patched|
    ensures Mod(k, size) < |patched[Div(k, size)].plain|
    ensures offset <= k < offset + |delta| ==> patched[Div(k, size)].plain[Mod(k, size)] == delta[k - offset]
    ensures !(offset <= k < offset + |delta|) ==>
      k < total && k < |Content(blocks)| && patched[Div(k, size)].plain[Mod(k, size)] == Content(blocks)[k]
  {
    var i, m, first, base := Div(k, size), Mod(k, size), Div(offset, size), BlockAt(blocks, Div(k, size), file);
    PatchedAt(blocks, first, replacements, i);
    if first <= i < first + |replacements| {
      TouchedByte(blocks, file, offset, delta, size, total, replacements, i - first, k, i, m);
    } else {
      UntouchedByte(size, offset, |delta|, k);
      KeptByte(blocks, file, size, total, k);
    }
    assert LaidOver(patched[i].plain, base.plain, m, delta, k - offset);
    if !(0 <= k - offset < |delta|) {
      KeptByte(blocks, file, size, total, k);
    }
  }

  /** Byte m of a block after the write is byte d of delta where there is one, and otherwise as before. */
  ghost predicate LaidOver(after: seq<byte>, before: seq<byte>, m: nat, delta: seq<byte>, d: int) {
    && m < |after|
    && (0 <= d < |delta| ==> after[m] == delta[d])
    && (!(0 <= d < |delta|) ==> m < |before| && after[m] == before[m])
  }

  /** A byte of the file before the write. */
  lemma KeptByte(blocks: seq<BlockRef>, file: Id, size: nat, total: nat, k: nat)
    requires WellFormed(blocks, size, total) && k < total
    ensures k < |Content(blocks)| && Div(k, size) < |blocks| && Mod(k, size) < |blocks[Div(k, size)].plain|
    ensures BlockAt(blocks, Div(k, size), file) == blocks[Div(k, size)] && blocks[Div(k, size)].plain[Mod(k, size)] == Content(blocks)[k]
  {
    ContentAt(blocks, size, total, k);
  }

  lemma TouchedByte(blocks: seq<BlockRef>, file: Id, offset: nat, delta: seq<byte>, size: nat, total: nat, replacements: seq<BlockRef>, j: nat, k: nat, i: nat, m: nat)
    requires WellFormed(blocks, size, total) && offset <= total && |delta| > 0
    requires ReplacesAll(replacements, blocks, file, offset, delta, size)
    requires j < |replacements| && i == Div(k, size) == Div(offset, size) + j && m == Mod(k, size)
    requires k < Max(total, offset + |delta|)
    ensures LaidOver(replacements[j].plain, BlockAt(blocks, i, file).plain, m, delta, k - offset)
  {
    var p, base, r := PartAt(offset, |delta|, size, j), BlockAt(blocks, i, file), replacements[j];
    PartByte(offset, |delta|, size, j, k, i, m);
    TouchedLength(blocks, file, offset, delta, size, total, replacements, j, k);
    assert Replaces(r, base, p, delta);
    ReplacedByte(r, base, p, delta, m, k - offset);
  }

  lemma TouchedLength(blocks: seq<BlockRef>, file: Id, offset: nat, delta: seq<byte>, size: nat, total: nat, replacements: seq<BlockRef>, j: nat, k: nat)
    requires WellFormed(blocks, size, total) && offset <= total && |delta| > 0
    requires ReplacesAll(replacements, blocks, file, offset, delta, size)
    requires j < |replacements| && Div(k, size) == Div(offset, size) + j
    requires k < Max(total, offset + |delta|)
    ensures Mod(k, size) < |replacements[j].plain|
  {
    TouchedBlock(blocks, file, offset, delta, size, total, replacements, j, Div(k, size), Max(total, offset + |delta|));
    DivSplit(k, size);
  }

  /** Byte k of the file is byte Mod(k, size) of its block, and lies in the block's part exactly if it lies in the range. */
  lemma PartByte(offset: nat, length: nat, size: nat, j: nat, k: nat, i: nat, m: nat)
    requires size > 0 && j < PartCount(offset, length, size) && i == Div(k, size) == Div(offset, size) + j && m == Mod(k, size)
    ensures var p := PartAt(offset, length, size, j);
            && (offset <= k < offset + length <==> p.blockOffset <= m < p.blockOffset + p.length)
            && p.deltaOffset + m - p.blockOffset == k - offset
  {
    var p, at := PartAt(offset, length, size, j), Mul(i, size);
    PartShares(offset, length, size, j, p, at);
    DivSplit(k, size);
    SharedByte(offset, offset + length, at, size, p, m, k);
  }

  /** p is what the range from offset to end shares with the block at byte position at. */
  ghost predicate Shares(p: Part, offset: int, end: int, at: int, size: int) {
    && p.blockOffset == Max(offset, at) - at
    && p.deltaOffset == Max(offset, at) - offset
    && p.length == Min(end, at + size) - Max(offset, at)
  }

  lemma PartShares(offset: nat, length: nat, size: nat, j: nat, p: Part, at: nat)
    requires size > 0 && j < PartCount(offset, length, size)
    requires p == PartAt(offset, length, size, j) && at == Mul(Div(offset, size) + j, size)
    ensures Shares(p, offset, offset + length, at, size)
  {
  }

  lemma SharedByte(offset: int, end: int, at: int, size: int, p: Part, m: int, k: int)
    requires Shares(p, offset, end, at, size)
    requires k == at + m && 0 <= m < size
    ensures offset <= k < end <==> p.blockOffset <= m < p.blockOffset + p.length
    ensures p.deltaOffset + m - p.blockOffset == k - offset
  {
  }

  lemma ReplacedByte(r: BlockRef, base: BlockRef, p: Part, delta: seq<byte>, m: nat, d: int)
    requires Replaces(r, base, p, delta) && m < |r.plain|
    requires 0 <= d < |delta| <==> p.blockOffset <= m < p.blockOffset + p.length
    requires p.deltaOffset + m - p.blockOffset == d
    ensures LaidOver(r.plain, base.plain, m, delta, d)
  {
  }

  lemma UntouchedByte(size: nat, offset: nat, length: nat, k: nat)
    requires size > 0 && length > 0
    requires !(Div(offset, size) <= Div(k, size) < Div(offset, size) + PartCount(offset, length, size))
    ensures !(offset <= k < offset + length)
  {
    DivSplit(k, size);
    DivSplit(offset, size);
    PartRange(offset, length, size);
    CeilDivBounds(offset + length, size);
    if Div(k, size) < Div(offset, size) {
      MulMonotone(Div(k, size), Div(offset, size), size);
    }
  }
}
