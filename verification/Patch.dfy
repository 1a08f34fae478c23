/** PatchBlock on the DataNode: the delta is collected, then the result streams out of the base. */
module Patch {
  import opened Bytes

  type Result<T> = Outcome<T, Reason>

  datatype Reason = InvalidArgument | ChecksumMismatch | SparseWriteUnsupported

  datatype Frame = Chunk(offset: nat, data: seq<byte>)

  /** Frames that spell data in order, each nonempty and at most one transport fragment long. */
  ghost predicate Spells(frames: seq<Frame>, data: seq<byte>)
  {
    if frames == [] then data == []
    else
      var last := frames[|frames| - 1];
      && 0 < |last.data| <= CHUNK
      && last.offset + |last.data| == |data|
      && data[last.offset..] == last.data
      && Spells(frames[..|frames| - 1], data[..last.offset])
  }

  /** Frame i continues the bytes that the frames before it spell. */
  lemma {:induction false} SpellsPrefix(frames: seq<Frame>, data: seq<byte>, i: nat)
    requires Spells(frames, data) && i < |frames|
    ensures 0 <= frames[i].offset && 0 < |frames[i].data| <= CHUNK && frames[i].offset + |frames[i].data| <= |data|
    ensures Spells(frames[..i], data[..frames[i].offset])
  {
    var front, n := frames[..|frames| - 1], frames[|frames| - 1].offset;
    if i < |front| {
      SpellsPrefix(front, data[..n], i);
      assert front[..i] == frames[..i] && data[..n][..frames[i].offset] == data[..frames[i].offset];
    }
  }

  lemma {:induction false} SpellsUnique(frames: seq<Frame>, a: seq<byte>, b: seq<byte>)
    requires Spells(frames, a) && Spells(frames, b)
    ensures a == b
  {
    if frames != [] {
      var n := frames[|frames| - 1].offset;
      SpellsUnique(frames[..|frames| - 1], a[..n], b[..n]);
      assert a == a[..n] + a[n..] && b == b[..n] + b[n..];
    }
  }

  /** The delta is accepted exactly if the frames spell the announced bytes; sha256 stands for the bytes it
      was taken of. */
  method CollectDelta(frames: seq<Frame>, announced: seq<byte>) returns (r: Result<seq<byte>>)
    ensures r.Ok? <==> Spells(frames, announced)
    ensures r.Ok? ==> r.value == announced
  {
    var delta: seq<byte>, i := [], 0;
    while i < |frames|
      invariant 0 <= i <= |frames| && |delta| <= |announced|
      invariant Spells(frames[..i], delta)
    {
      var frame := frames[i];
      if !(frame.offset == |delta| && 0 < |frame.data| <= CHUNK && |delta| + |frame.data| <= |announced|) {
        if Spells(frames, announced) {
          Rejected(frames, announced, i, delta);
        }
        return Err(InvalidArgument);
      }
      assert frames[..i + 1][..i] == frames[..i];
      delta := delta + frame.data;
      assert delta[..frame.offset] + frame.data == delta;
      i := i + 1;
    }
    assert frames[..i] == frames;
    if delta != announced {
      if Spells(frames, announced) {
        SpellsUnique(frames, delta, announced);
      }
      return Err(ChecksumMismatch);
    }
    return Ok(delta);
  }

  lemma Rejected(frames: seq<Frame>, announced: seq<byte>, i: nat, delta: seq<byte>)
    requires Spells(frames, announced) && i < |frames| && Spells(frames[..i], delta)
    ensures frames[i].offset == |delta| && 0 < |frames[i].data| <= CHUNK && |delta| + |frames[i].data| <= |announced|
  {
    SpellsPrefix(frames, announced, i);
    SpellsUnique(frames[..i], delta, announced[..frames[i].offset]);
  }

  /** The client's frames of one piece. */
  method ClientFrames(piece: seq<byte>) returns (frames: seq<Frame>)
    ensures Spells(frames, piece)
  {
    frames := [];
    var start := 0;
    while start < |piece|
      invariant 0 <= start <= |piece| && Spells(frames, piece[..start])
    {
      var data := piece[start..Min(start + CHUNK, |piece|)];
      assert (frames + [Chunk(start, data)])[..|frames|] == frames;
      assert piece[..start + |data|][..start] == piece[..start];
      frames := frames + [Chunk(start, data)];
      start := start + |data|;
    }
    assert piece[..start] == piece;
  }

  /** Every byte of a result of this size comes from the base or from the delta, in a run without a gap. */
  predicate Covered(base: seq<byte>, offset: nat, delta: seq<byte>, size: nat) {
    size <= |base| || (offset <= |base| && size <= offset + |delta|)
  }

  /** What the patched block must hold: delta over the base, cut at size. */
  function Overlay(base: seq<byte>, offset: nat, delta: seq<byte>, size: nat): (r: seq<byte>)
    requires Covered(base, offset, delta, size)
    ensures |r| == size
  {
    seq(size, k requires 0 <= k < size => if offset <= k < offset + |delta| then delta[k - offset] else base[k])
  }

  /** For the size the control authorizes the result is the plain splice, so the sparse check cannot fire. */
  lemma AuthorizedSize(base: seq<byte>, offset: nat, delta: seq<byte>)
    requires offset <= |base|
    ensures var size := Max(|base|, offset + |delta|);
            Covered(base, offset, delta, size) && Overlay(base, offset, delta, size) == Splice(base, offset, delta)
  {
    var size := Max(|base|, offset + |delta|);
    assert Overlay(base, offset, delta, size) == Splice(base, offset, delta);
  }

  /** The overlay with zeros where neither source reaches, which is what the buffers hold in between. */
  ghost function Padded(base: seq<byte>, offset: nat, delta: seq<byte>, size: nat): (r: seq<byte>)
    ensures |r| == size
    ensures Covered(base, offset, delta, size) ==> r == Overlay(base, offset, delta, size)
  {
    seq(size, k requires 0 <= k < size =>
      if offset <= k < offset + |delta| then delta[k - offset] else if k < |base| then base[k] else 0)
  }

  ghost function From(base: seq<byte>, at: nat): seq<byte> {
    if at <= |base| then base[at..] else []
  }

  /** One fragment of the base, padded to the wanted length. */
  ghost function Raw(base: seq<byte>, at: nat, wanted: nat): (r: seq<byte>)
    ensures |r| == wanted
  {
    seq(wanted, k requires 0 <= k < wanted => if at + k < |base| then base[at + k] else 0)
  }

  lemma FragmentIs(base: seq<byte>, offset: nat, delta: seq<byte>, size: nat, at: nat, wanted: nat, chunk: seq<byte>)
    requires at + wanted <= size
    requires var raw, low, high := Raw(base, at, wanted), Max(at, offset), Min(at + wanted, offset + |delta|);
             chunk == if high > low then raw[..low - at] + delta[low - offset..high - offset] + raw[high - at..] else raw
    ensures chunk == Padded(base, offset, delta, size)[at..at + wanted]
  {
  }

  /** The inner loop: pull records until a fragment can be cut or the base ends, then cut it off the buffer. */
  method Fill(records: seq<seq<byte>>, ghost base: seq<byte>, at: nat, buffered: seq<byte>, read: nat, wanted: nat)
    returns (taken: seq<byte>, pending: seq<byte>, next: nat)
    requires read <= |records| && buffered + Flatten(records[read..]) == From(base, at)
    ensures next <= |records| && pending + Flatten(records[next..]) == From(base, at + wanted)
    ensures taken == From(base, at)[..Min(wanted, |From(base, at)|)]
  {
    pending, next := buffered, read;
    var sourceDone := false;
    while |pending| < wanted && !sourceDone
      invariant 0 <= next <= |records| && (sourceDone ==> next == |records|)
      invariant pending + Flatten(records[next..]) == From(base, at)
      decreases |records| - next, !sourceDone
    {
      if next == |records| {
        sourceDone := true;
      } else {
        assert records[next..][1..] == records[next + 1..];
        assert pending + records[next] + Flatten(records[next + 1..]) == pending + Flatten(records[next..]);
        pending := pending + records[next];
        next := next + 1;
      }
    }
    Drained(base, at, pending, Flatten(records[next..]), wanted);
    taken := pending[..Min(wanted, |pending|)];
    pending := pending[|taken|..];
  }

  /** One round of the outer loop: pad what the base does not give, lay the delta over it. */
  method Fragment(ghost base: seq<byte>, offset: nat, delta: seq<byte>, ghost size: nat, at: nat, wanted: nat, taken: seq<byte>)
    returns (r: Result<seq<byte>>)
    requires 0 < wanted && at + wanted <= size && Covered(base, offset, delta, at)
    requires taken == From(base, at)[..Min(wanted, |From(base, at)|)]
    ensures r.Ok? <==> Covered(base, offset, delta, at + wanted)
    ensures r.Ok? ==> r.value == Padded(base, offset, delta, size)[at..at + wanted]
    ensures r.Err? ==> r.reason == SparseWriteUnsupported
  {
    var chunk := taken;
    if |chunk| < wanted {
      if !(at + |chunk| >= offset && at + wanted <= offset + |delta|) {
        return Err(SparseWriteUnsupported);
      }
      chunk := chunk + seq(wanted - |chunk|, _ => 0);
    }
    assert chunk == Raw(base, at, wanted);
    var low, high := Max(at, offset), Min(at + wanted, offset + |delta|);
    if high > low {
      chunk := chunk[..low - at] + delta[low - offset..high - offset] + chunk[high - at..];
    }
    FragmentIs(base, offset, delta, size, at, wanted, chunk);
    return Ok(chunk);
  }

  /** result_chunks: whatever way the stored records cut the base, it fails exactly if some byte of the result
      would come from nowhere, and otherwise yields the result cut into full fragments. So both passes over the
      base, the one that hashes and the one that stores, see the same fragments. */
  method ResultChunks(records: seq<seq<byte>>, offset: nat, delta: seq<byte>, size: nat) returns (r: Result<seq<seq<byte>>>)
    ensures r.Ok? <==> Covered(Flatten(records), offset, delta, size)
    ensures r.Err? ==> r.reason == SparseWriteUnsupported
    ensures r.Ok? ==> CutsAt(r.value, Overlay(Flatten(records), offset, delta, size), CHUNK)
    ensures r.Ok? ==> Flatten(r.value) == Overlay(Flatten(records), offset, delta, size)
  {
    ghost var base := Flatten(records);
    ghost var target := Padded(base, offset, delta, size);
    var out: seq<seq<byte>>, pending: seq<byte>, next, at := [], [], 0, 0;
    assert records[0..] == records;
    while at < size
      invariant 0 <= next <= |records| && 0 <= at <= size && CutSoFar(out, target, at)
      invariant pending + Flatten(records[next..]) == From(base, at)
      invariant Covered(base, offset, delta, at)
      decreases size - at
    {
      var wanted := Min(CHUNK, size - at);
      var taken;
      taken, pending, next := Fill(records, base, at, pending, next, wanted);
      var fragment := Fragment(base, offset, delta, size, at, wanted, taken);
      if fragment.Err? {
        return Err(fragment.reason);
      }
      CutMore(out, target, at, fragment.value);
      out := out + [fragment.value];
      at := at + wanted;
    }
    CutAll(out, target);
    return Ok(out);
  }

  lemma Drained(base: seq<byte>, at: nat, pending: seq<byte>, rest: seq<byte>, wanted: nat)
    requires pending + rest == From(base, at) && (|pending| < wanted ==> pending == From(base, at))
    ensures var n := Min(wanted, |pending|);
            && pending[..n] == From(base, at)[..Min(wanted, |From(base, at)|)]
            && pending[n..] + rest == From(base, at + wanted)
  {
  }

  /** out holds the fragments of target up to byte at. */
  ghost predicate CutSoFar(out: seq<seq<byte>>, target: seq<byte>, at: nat) {
    && at == Min(Mul(|out|, CHUNK), |target|)
    && (|out| > 0 ==> Mul(|out| - 1, CHUNK) < |target|)
    && forall k {:trigger out[k]} :: 0 <= k < |out| ==> IsCut(out[k], target, CHUNK, k)
  }

  lemma CutMore(out: seq<seq<byte>>, target: seq<byte>, at: nat, piece: seq<byte>)
    requires CutSoFar(out, target, at) && at < |target|
    requires piece == target[at..at + Min(CHUNK, |target| - at)]
    ensures CutSoFar(out + [piece], target, at + |piece|)
  {
    assert IsCut(piece, target, CHUNK, |out|);
  }

  lemma CutAll(out: seq<seq<byte>>, target: seq<byte>)
    requires CutSoFar(out, target, |target|)
    ensures CutsAt(out, target, CHUNK) && Flatten(out) == target
  {
    CeilDivBounds(|target|, CHUNK);
    CutsFlatten(out, target, CHUNK);
  }
}
