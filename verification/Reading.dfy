/** A ranged read: the control pages out block grants, the nodes slice blocks, the client resumes in mid-stream. */
module Reading {
  import opened Bytes
  import opened Layout

  const PAGE_LIMIT: nat := 64
  const MAX_RETRIES: nat := 2

  type Result<T> = Outcome<T, Reason>

  datatype Reason = InvalidArgument | Transport

  datatype Snapshot = Snapshot(blocks: seq<BlockRef>, blockSize: nat, total: nat)

  datatype Extent = Extent(block: BlockRef, low: nat, length: nat)

  /** The bytes low .. low + length of one block. */
  type Grant = g: Extent | 0 < g.length && g.low + g.length <= |g.block.plain|
    witness Extent(BlockRef(0, 0, 0, 1, [0]), 0, 1)

  /** A stream that breaks after so many bytes: whether its error is one that the client retries, and whether a node is
      left that has not failed yet. */
  datatype Break = Break(bytes: nat, retryable: bool, replicaLeft: bool)

  datatype Plan = Plan(grants: seq<Grant>, next: Option<nat>)

  ghost predicate Valid(s: Snapshot) {
    WellFormed(s.blocks, s.blockSize, s.total)
  }

  function End(s: Snapshot, offset: nat, length: nat): nat {
    Min(offset + length, s.total)
  }

  /** How many blocks the range meets. */
  function Meets(s: Snapshot, offset: nat, length: nat): nat
    requires s.blockSize > 0
  {
    var end := End(s, offset, length);
    if offset < end then CeilDiv(end, s.blockSize) - Min(Div(offset, s.blockSize), CeilDiv(end, s.blockSize)) else 0
  }

  lemma MeetsBounds(s: Snapshot, offset: nat, length: nat, j: nat)
    requires Valid(s) && j < Meets(s, offset, length)
    ensures Div(offset, s.blockSize) + j < |s.blocks|
    ensures var i, end := Div(offset, s.blockSize) + j, End(s, offset, length);
            var at, b := Mul(i, s.blockSize), s.blocks[i];
            && at < end && offset < at + s.blockSize && (j > 0 ==> offset < at)
            && b.size == |b.plain| == Min(s.blockSize, s.total - at)
            && Div(offset, s.blockSize) + Meets(s, offset, length) == CeilDiv(end, s.blockSize)
  {
    var size, end := s.blockSize, End(s, offset, length);
    var i := Div(offset, size) + j;
    CeilDivBounds(end, size);
    CeilDivBounds(s.total, size);
    DivSplit(offset, size);
    assert i < CeilDiv(end, size);
    assert Mul(i, size) < end;
    MulMonotone(Div(offset, size), i, size);
    assert Fits(s.blocks[i], i, size, s.total);
  }

  /** What the range needs of its j-th block. */
  ghost function GrantAt(s: Snapshot, offset: nat, length: nat, j: nat): (g: Grant)
    requires Valid(s) && j < Meets(s, offset, length)
  {
    MeetsBounds(s, offset, length, j);
    var i := Div(offset, s.blockSize) + j;
    var at := Mul(i, s.blockSize);
    var low, high := Max(0, offset - at), Min(s.blocks[i].size, End(s, offset, length) - at);
    Extent(s.blocks[i], low, high - low)
  }

  ghost function Needed(s: Snapshot, offset: nat, length: nat): (gs: seq<Grant>)
    requires Valid(s)
    ensures |gs| == Meets(s, offset, length)
  {
    seq(Meets(s, offset, length), j requires 0 <= j < Meets(s, offset, length) => GrantAt(s, offset, length, j))
  }

  ghost function Slice(g: Grant): seq<byte>
  {
    g.block.plain[g.low..g.low + g.length]
  }

  /** The bytes a read of this range must return. */
  ghost function Range(s: Snapshot, offset: nat, length: nat): seq<byte>
    requires Valid(s)
  {
    ContentBlock(s.blocks, s.blockSize, s.total, 0);
    if offset < End(s, offset, length) then Content(s.blocks)[offset..End(s, offset, length)] else []
  }

  lemma SliceIs(s: Snapshot, offset: nat, length: nat, j: nat)
    requires Valid(s) && j < Meets(s, offset, length)
    ensures |Content(s.blocks)| == s.total
    ensures var at := Mul(Div(offset, s.blockSize) + j, s.blockSize);
            var low, high := Max(offset, at), Min(End(s, offset, length), at + s.blockSize);
            low <= high && Slice(GrantAt(s, offset, length, j)) == Content(s.blocks)[low..high]
  {
    var i := Div(offset, s.blockSize) + j;
    var at, content, g := Mul(i, s.blockSize), Content(s.blocks), GrantAt(s, offset, length, j);
    GrantBounds(s, offset, length, j);
    ContentBlock(s.blocks, s.blockSize, s.total, i);
    SubSlice(content, at, at + s.blocks[i].size, g.low, g.low + g.length);
  }

  lemma GrantBounds(s: Snapshot, offset: nat, length: nat, j: nat)
    requires Valid(s) && j < Meets(s, offset, length)
    ensures var i, g := Div(offset, s.blockSize) + j, GrantAt(s, offset, length, j);
            var at := Mul(i, s.blockSize);
            && i < |s.blocks| && g.block == s.blocks[i]
            && g.low + g.length <= s.blocks[i].size
            && at + g.low == Max(offset, at)
            && at + g.low + g.length == Min(End(s, offset, length), at + s.blockSize)
  {
    MeetsBounds(s, offset, length, j);
  }

  lemma SubSlice(s: seq<byte>, low: nat, high: nat, a: nat, b: nat)
    requires low <= high <= |s| && a <= b <= high - low
    ensures s[low..high][a..b] == s[low + a..low + b]
  {
    var x, y := s[low..high][a..b], s[low + a..low + b];
    assert |x| == |y| && forall k :: 0 <= k < |x| ==> x[k] == y[k];
  }

  lemma Joined(s: seq<byte>, low: nat, mid: nat, high: nat)
    requires low <= mid <= high <= |s|
    ensures s[low..mid] + s[mid..high] == s[low..high]
  {
  }

  /** Where the first n grants of a range end. */
  ghost function Reach(s: Snapshot, offset: nat, length: nat, n: nat): nat
    requires s.blockSize > 0
  {
    if n == 0 then offset else Min(End(s, offset, length), Mul(Div(offset, s.blockSize) + n, s.blockSize))
  }

  /** Grant j is the next piece of the range: from where grant j - 1 ends to where grant j ends. */
  lemma SliceReach(s: Snapshot, offset: nat, length: nat, j: nat)
    requires Valid(s) && j < Meets(s, offset, length)
    ensures offset <= Reach(s, offset, length, j) < Reach(s, offset, length, j + 1) <= |Content(s.blocks)|
    ensures Slice(GrantAt(s, offset, length, j)) == Content(s.blocks)[Reach(s, offset, length, j)..Reach(s, offset, length, j + 1)]
  {
    var at := Mul(Div(offset, s.blockSize) + j, s.blockSize);
    SliceIs(s, offset, length, j);
    MeetsBounds(s, offset, length, j);
    FirstAt(offset, s.blockSize, j);
  }

  lemma FirstAt(offset: nat, size: nat, j: nat)
    requires size > 0
    ensures Mul(Div(offset, size) + j + 1, size) == Mul(Div(offset, size) + j, size) + size
    ensures j == 0 ==> Mul(Div(offset, size) + j, size) <= offset
  {
    DivSplit(offset, size);
  }

  /** The last grant ends where the range ends. */
  lemma ReachAll(s: Snapshot, offset: nat, length: nat)
    requires Valid(s)
    ensures offset < End(s, offset, length) ==> Reach(s, offset, length, Meets(s, offset, length)) == End(s, offset, length)
    ensures offset >= End(s, offset, length) ==> Meets(s, offset, length) == 0
  {
    DivSplit(offset, s.blockSize);
    CeilDivBounds(End(s, offset, length), s.blockSize);
  }

  // ---------------------------------------------------------------- the control: one page of grants

  /** ResolveBlocks: page cursor .. of the grants the range needs, and where the next page starts. */
  method ResolveBlocks(s: Snapshot, offset: nat, length: nat, limit: nat, cursor: nat) returns (r: Result<Plan>)
    requires Valid(s)
    ensures r.Ok? <==> CheckedRange(offset, length) && 1 <= limit <= PAGE_LIMIT && cursor <= Meets(s, offset, length)
    ensures r.Err? ==> r.reason == InvalidArgument
    ensures r.Ok? ==>
      var needed, stop := Needed(s, offset, length), Min(Meets(s, offset, length), cursor + limit);
      r.value == Plan(needed[cursor..stop], if stop < |needed| then Some(stop) else None)
  {
    if !CheckedRange(offset, length) || !(1 <= limit <= PAGE_LIMIT) {
      return Err(InvalidArgument);
    }
    var end, size := End(s, offset, length), s.blockSize;
    var startIndex := Div(offset, size);
    var stopIndex := if length > 0 && offset < end then CeilDiv(end, size) else startIndex;
    MeetsIs(s, offset, length);
    if cursor > Max(0, stopIndex - startIndex) {
      return Err(InvalidArgument);
    }
    var planned := PlanGrants(s, offset, length, startIndex, cursor, Min(stopIndex - startIndex, cursor + limit));
    var next := cursor + |planned|;
    return Ok(Plan(planned, if startIndex + next < stopIndex then Some(next) else None));
  }

  method PlanGrants(s: Snapshot, offset: nat, length: nat, startIndex: nat, cursor: nat, stop: nat) returns (planned: seq<Grant>)
    requires Valid(s) && startIndex == Div(offset, s.blockSize) && cursor <= stop <= Meets(s, offset, length)
    ensures planned == Needed(s, offset, length)[cursor..stop]
  {
    planned := [];
    var j := cursor;
    while j < stop
      invariant cursor <= j <= stop && planned == Needed(s, offset, length)[cursor..j]
    {
      var grant := Clip(s, offset, length, startIndex, j);
      planned, j := planned + [grant], j + 1;
    }
  }

  method Clip(s: Snapshot, offset: nat, length: nat, startIndex: nat, j: nat) returns (grant: Grant)
    requires Valid(s) && startIndex == Div(offset, s.blockSize) && j < Meets(s, offset, length)
    ensures grant == GrantAt(s, offset, length, j)
  {
    MeetsBounds(s, offset, length, j);
    var block, at := s.blocks[startIndex + j], Mul(startIndex + j, s.blockSize);
    var low, high := Max(0, offset - at), Min(block.size, End(s, offset, length) - at);
    grant := Extent(block, low, high - low);
  }

  lemma MeetsIs(s: Snapshot, offset: nat, length: nat)
    requires Valid(s)
    ensures var end, start := End(s, offset, length), Div(offset, s.blockSize);
            Meets(s, offset, length) == (if length > 0 && offset < end then CeilDiv(end, s.blockSize) else start) - start
  {
    DivSplit(offset, s.blockSize);
    CeilDivBounds(End(s, offset, length), s.blockSize);
  }

  // ---------------------------------------------------------------- the node: one slice of a block

  /** A stored block is read back in records; how they cut it is whatever its writer did. */
  method StoredRecords(plain: seq<byte>) returns (records: seq<seq<byte>>)
    ensures Flatten(records) == plain && Chunked(records)
  {
    records := [];
    var at := 0;
    while at < |plain|
      invariant 0 <= at <= |plain| && Flatten(records) == plain[..at] && Chunked(records)
    {
      var n :| 0 < n <= CHUNK && at + n <= |plain|;
      FlattenSnoc(records, plain[at..at + n]);
      records, at := records + [plain[at..at + n]], at + n;
    }
    assert plain[..at] == plain;
  }

  /** GetBlock: slice the records against the range and stop once it is passed. */
  method GetBlock(records: seq<seq<byte>>, start: nat, length: nat) returns (frames: seq<seq<byte>>)
    requires Chunked(records) && start + length <= |Flatten(records)|
    ensures Flatten(frames) == Flatten(records)[start..start + length]
    ensures Chunked(frames)
  {
    frames := [];
    ghost var plain := Flatten(records);
    var position, i := 0, 0;
    assert records[..0] == [];
    while i < |records|
      invariant 0 <= i <= |records| && position == Offset(records, i)
      invariant Chunked(frames) && Flatten(frames) == Sent(plain, start, length, position)
    {
      PrefixOf(records, i);
      frames := EmitShare(plain, start, length, position, records[i], frames);
      position, i := position + |records[i]|, i + 1;
      if position >= start + length {
        return;
      }
    }
  }

  /** What has been sent once the records up to position have been looked at. */
  ghost function Sent(plain: seq<byte>, start: nat, length: nat, position: nat): seq<byte>
    requires start + length <= |plain|
  {
    Between(plain, start, Min(position, start + length))
  }

  /** The share that one record has in the range. */
  method EmitShare(ghost plain: seq<byte>, start: nat, length: nat, position: nat, chunk: seq<byte>, frames: seq<seq<byte>>)
    returns (r: seq<seq<byte>>)
    requires start + length <= |plain| && position + |chunk| <= |plain| && chunk == plain[position..position + |chunk|]
    requires 0 < |chunk| <= CHUNK && Chunked(frames) && Flatten(frames) == Sent(plain, start, length, position)
    ensures Chunked(r) && Flatten(r) == Sent(plain, start, length, position + |chunk|)
  {
    var low, high := Max(start, position), Min(start + length, position + |chunk|);
    if high > low {
      Overlap(plain, start, length, position, chunk, low, high);
      r := Emit(frames, chunk[low - position..high - position]);
    } else {
      NoOverlap(plain, start, length, position, |chunk|);
      r := frames;
    }
  }

  method Emit(frames: seq<seq<byte>>, payload: seq<byte>) returns (r: seq<seq<byte>>)
    requires Chunked(frames) && 0 < |payload| <= CHUNK
    ensures Chunked(r) && Flatten(r) == Flatten(frames) + payload
  {
    FlattenSnoc(frames, payload);
    r := frames + [payload];
  }

  ghost function Between(s: seq<byte>, low: nat, high: nat): seq<byte>
    requires high <= |s|
  {
    if low <= high then s[low..high] else []
  }

  /** Where record i starts. */
  ghost function Offset(records: seq<seq<byte>>, i: nat): (n: nat)
    requires i <= |records|
    ensures n <= |Flatten(records)|
    ensures i == |records| ==> n == |Flatten(records)|
  {
    assert records == records[..i] + records[i..];
    FlattenConcat(records[..i], records[i..]);
    assert i == |records| ==> records[..i] == records;
    |Flatten(records[..i])|
  }

  lemma Overlap(plain: seq<byte>, start: nat, length: nat, position: nat, chunk: seq<byte>, low: nat, high: nat)
    requires start + length <= |plain| && position + |chunk| <= |plain| && chunk == plain[position..position + |chunk|]
    requires low == Max(start, position) < high == Min(start + length, position + |chunk|)
    ensures Sent(plain, start, length, position) + chunk[low - position..high - position] == Sent(plain, start, length, position + |chunk|)
  {
    SubSlice(plain, position, position + |chunk|, low - position, high - position);
    assert Sent(plain, start, length, position) == plain[start..low];
    Joined(plain, start, low, high);
  }

  lemma NoOverlap(plain: seq<byte>, start: nat, length: nat, position: nat, size: nat)
    requires start + length <= |plain| && Min(start + length, position + size) <= Max(start, position)
    ensures Sent(plain, start, length, position) == Sent(plain, start, length, position + size)
  {
  }

  lemma PrefixOf(records: seq<seq<byte>>, i: nat)
    requires i < |records|
    ensures Flatten(records[..i + 1]) == Flatten(records[..i]) + records[i]
    ensures var n := |Flatten(records[..i])|;
            n + |records[i]| <= |Flatten(records)| && Flatten(records)[n..n + |records[i]|] == records[i]
  {
    assert records[..i + 1] == records[..i] + [records[i]];
    FlattenSnoc(records[..i], records[i]);
    assert records == records[..i + 1] + records[i + 1..];
    FlattenConcat(records[..i + 1], records[i + 1..]);
  }

  // ---------------------------------------------------------------- the client: resume, then turn the page

  /** The plan for what is left of a grant is one grant of the same block for exactly the missing bytes. */
  lemma ResumeGrant(s: Snapshot, offset: nat, length: nat, j: nat, received: nat)
    requires Valid(s) && j < Meets(s, offset, length)
    requires received < GrantAt(s, offset, length, j).length
    ensures var g := GrantAt(s, offset, length, j);
            var position := Mul(g.block.index, s.blockSize) + g.low + received;
            && Meets(s, position, g.length - received) == 1
            && GrantAt(s, position, g.length - received, 0) == Extent(g.block, g.low + received, g.length - received)
            && position + g.length - received <= offset + length
  {
    var g, i, size := GrantAt(s, offset, length, j), Div(offset, s.blockSize) + j, s.blockSize;
    GrantBounds(s, offset, length, j);
    assert g.block.index == i && Mul(i, size) + g.low + g.length <= Mul(i, size) + size by {
      assert Fits(s.blocks[i], i, size, s.total);
    }
    var position, rest := Mul(i, size) + g.low + received, g.length - received;
    OneBlock(s, position, rest, i);
    GrantBounds(s, position, rest, 0);
  }

  /** One stream: it ends with the whole grant, or breaks after a number of bytes; how records cut the block is
      whatever its writer did. */
  method Attempt(grant: Grant, bytes: nat) returns (got: seq<byte>)
    requires bytes <= grant.length
    ensures got == Slice(grant)[..bytes]
  {
    var records := StoredRecords(grant.block.plain);
    var frames := GetBlock(records, grant.low, bytes);
    SubSlice(grant.block.plain, grant.low, grant.low + grant.length, 0, bytes);
    got := Flatten(frames);
  }

  /** What the first n breaks have let through. */
  function Got(breaks: seq<Break>, n: nat): nat
    requires n <= |breaks|
  {
    if n == 0 then 0 else Got(breaks, n - 1) + breaks[n - 1].bytes
  }

  /** The first n breaks are got over: few enough, each retried with a node left and bytes still missing. */
  predicate GotOver(length: nat, breaks: seq<Break>, n: nat)
    requires n <= |breaks|
  {
    n <= MAX_RETRIES && forall k {:trigger breaks[k]} :: 0 <= k < n ==> breaks[k].retryable && breaks[k].replicaLeft && Got(breaks, k + 1) < length
  }

  /** A grant of this length is read to its end through these breaks. */
  predicate Survives(length: nat, breaks: seq<Break>) {
    GotOver(length, breaks, |breaks|)
  }

  lemma OneBlock(s: Snapshot, position: nat, rest: nat, i: nat)
    requires Valid(s) && rest > 0
    requires Mul(i, s.blockSize) <= position && position + rest <= Min(Mul(i, s.blockSize) + s.blockSize, s.total)
    ensures Div(position, s.blockSize) == i && Meets(s, position, rest) == 1 && End(s, position, rest) == position + rest
  {
    DivUnique(position, i, s.blockSize);
    CeilDivUnique(position + rest, i, s.blockSize);
  }

  /** After a break: a fresh plan for what is missing. */
  method Resume(s: Snapshot, ghost offset: nat, ghost length: nat, ghost j: nat, allocation: Grant, received: nat) returns (grant: Grant)
    requires Valid(s) && CheckedRange(offset, length)
    requires j < Meets(s, offset, length) && allocation == GrantAt(s, offset, length, j) && received < allocation.length
    ensures grant == Extent(allocation.block, allocation.low + received, allocation.length - received)
  {
    ResumeGrant(s, offset, length, j, received);
    var position := Mul(allocation.block.index, s.blockSize) + allocation.low + received;
    var plan := ResolveBlocks(s, position, allocation.length - received, 1, 0);
    if plan.Err? || |plan.value.grants| != 1 || plan.value.grants[0].block != allocation.block {
      assert false; // the fresh plan always is one grant of the same block
    }
    return plan.value.grants[0];
  }

  /** The inner loop for one grant. Each break asks for a fresh grant of the missing bytes, at most MAX_RETRIES times;
      the grant is read to its end exactly if all of its breaks can be got over. */
  method ReadGrant(s: Snapshot, ghost offset: nat, ghost length: nat, ghost j: nat, allocation: Grant, breaks: seq<Break>)
    returns (yielded: seq<byte>, r: Result<()>)
    requires Valid(s) && CheckedRange(offset, length)
    requires j < Meets(s, offset, length) && allocation == GrantAt(s, offset, length, j)
    ensures yielded <= Slice(allocation)
    ensures r.Ok? <==> Survives(allocation.length, breaks)
    ensures r.Ok? ==> yielded == Slice(allocation)
    ensures r.Err? ==> r.reason == Transport
  {
    var expectedOffset, expectedLength := allocation.low, allocation.length;
    var grant, attempts := allocation, 0;
    yielded := [];
    while |yielded| < expectedLength
      invariant attempts <= |breaks| && yielded <= Slice(allocation)
      invariant GotOver(expectedLength, breaks, attempts)
      invariant |yielded| < expectedLength ==> |yielded| == Got(breaks, attempts)
      invariant |yielded| < expectedLength ==>
        grant == Extent(allocation.block, expectedOffset + |yielded|, expectedLength - |yielded|)
      invariant |yielded| == expectedLength ==> attempts == |breaks|
      decreases |breaks| - attempts, expectedLength - |yielded|
    {
      var broken := attempts < |breaks|;
      var got := Attempt(grant, if broken then Min(breaks[attempts].bytes, grant.length) else grant.length);
      Continues(Slice(allocation), yielded, Slice(grant), got);
      yielded := yielded + got;
      if broken {
        if !breaks[attempts].retryable || attempts >= MAX_RETRIES || |yielded| == expectedLength {
          NotGotOver(expectedLength, breaks, attempts);
          return yielded, Err(Transport);
        }
        attempts := attempts + 1;
        var rest := Resume(s, offset, length, j, allocation, |yielded|);
        if !breaks[attempts - 1].replicaLeft {
          NotGotOver(expectedLength, breaks, attempts - 1);
          return yielded, Err(Transport);
        }
        grant := rest;
      }
    }
    return yielded, Ok(());
  }

  lemma NotGotOver(length: nat, breaks: seq<Break>, n: nat)
    requires n < |breaks|
    requires n >= MAX_RETRIES || !breaks[n].retryable || !breaks[n].replicaLeft || Got(breaks, n + 1) >= length
    ensures !Survives(length, breaks)
  {
  }

  lemma Continues(whole: seq<byte>, before: seq<byte>, rest: seq<byte>, got: seq<byte>)
    requires before <= whole && rest == whole[|before|..] && got <= rest
    ensures before + got <= whole
  {
  }

  /** What the first n grants spell. */
  ghost function Read(s: Snapshot, offset: nat, length: nat, n: nat): (r: seq<byte>)
    requires Valid(s) && n <= Meets(s, offset, length)
    ensures r <= Range(s, offset, length)
    ensures n == Meets(s, offset, length) ==> r == Range(s, offset, length)
    ensures n == 0 ==> r == []
  {
    ContentBlock(s.blocks, s.blockSize, s.total, 0);
    ReachAll(s, offset, length);
    if n == 0 then [] else
      SliceReach(s, offset, length, n - 1);
      Content(s.blocks)[offset..Reach(s, offset, length, n)]
  }

  lemma ReadMore(s: Snapshot, offset: nat, length: nat, n: nat)
    requires Valid(s) && n < Meets(s, offset, length)
    ensures Read(s, offset, length, n + 1) == Read(s, offset, length, n) + Slice(GrantAt(s, offset, length, n))
  {
    SliceReach(s, offset, length, n);
    Joined(Content(s.blocks), offset, Reach(s, offset, length, n), Reach(s, offset, length, n + 1));
  }

  /** The first n grants of a range are read to their ends. */
  ghost predicate AllSurvive(s: Snapshot, offset: nat, length: nat, breaks: nat -> seq<Break>, n: nat)
    requires Valid(s) && n <= Meets(s, offset, length)
  {
    forall j {:trigger breaks(j)} :: 0 <= j < n ==> Survives(GrantAt(s, offset, length, j).length, breaks(j))
  }

  /** The grants of one page, in order. */
  method ReadPage(s: Snapshot, ghost offset: nat, ghost length: nat, cursor: nat, grants: seq<Grant>, before: seq<byte>, breaks: nat -> seq<Break>)
    returns (yielded: seq<byte>, r: Result<()>)
    requires Valid(s) && CheckedRange(offset, length)
    requires cursor + |grants| <= Meets(s, offset, length)
    requires grants == Needed(s, offset, length)[cursor..cursor + |grants|]
    requires before == Read(s, offset, length, cursor) && AllSurvive(s, offset, length, breaks, cursor)
    ensures yielded <= Range(s, offset, length)
    ensures r.Ok? <==> AllSurvive(s, offset, length, breaks, cursor + |grants|)
    ensures r.Ok? ==> yielded == Read(s, offset, length, cursor + |grants|)
    ensures r.Err? ==> r.reason == Transport
  {
    yielded := before;
    var i := 0;
    while i < |grants|
      invariant 0 <= i <= |grants| && yielded == Read(s, offset, length, cursor + i)
      invariant AllSurvive(s, offset, length, breaks, cursor + i)
    {
      assert grants[i] == Needed(s, offset, length)[cursor + i];
      var outcome;
      yielded, outcome := ReadNext(s, offset, length, cursor + i, grants[i], yielded, breaks(cursor + i));
      if outcome.Err? {
        return yielded, outcome;
      }
      i := i + 1;
    }
    return yielded, Ok(());
  }

  method ReadNext(s: Snapshot, ghost offset: nat, ghost length: nat, ghost n: nat, grant: Grant, before: seq<byte>, breaks: seq<Break>)
    returns (yielded: seq<byte>, r: Result<()>)
    requires Valid(s) && CheckedRange(offset, length) && n < Meets(s, offset, length) && grant == GrantAt(s, offset, length, n)
    requires before == Read(s, offset, length, n)
    ensures yielded <= Range(s, offset, length)
    ensures r.Ok? <==> Survives(grant.length, breaks)
    ensures r.Ok? ==> yielded == Read(s, offset, length, n + 1)
    ensures r.Err? ==> r.reason == Transport
  {
    var piece;
    piece, r := ReadGrant(s, offset, length, n, grant, breaks);
    ReadMore(s, offset, length, n);
    Prefixes(before, piece, Slice(grant), Read(s, offset, length, n + 1), Range(s, offset, length));
    yielded := before + piece;
  }

  lemma Prefixes(a: seq<byte>, piece: seq<byte>, b: seq<byte>, both: seq<byte>, whole: seq<byte>)
    requires piece <= b && both == a + b && both <= whole
    ensures a + piece <= whole
  {
  }

  /** _iter_read: breaks says how the streams of each grant break. A read succeeds exactly if its arguments are sound
      and every grant is read to its end, and then has yielded exactly the bytes of the range, for every page limit and
      every cutting into records; one that fails has yielded a prefix of them. */
  method IterRead(s: Snapshot, offset: nat, length: nat, limit: nat, breaks: nat -> seq<Break>) returns (yielded: seq<byte>, r: Result<()>)
    requires Valid(s)
    ensures yielded <= Range(s, offset, length)
    ensures r.Ok? <==> CheckedRange(offset, length) && 1 <= limit <= PAGE_LIMIT && AllSurvive(s, offset, length, breaks, Meets(s, offset, length))
    ensures r.Ok? ==> yielded == Range(s, offset, length)
    ensures r.Err? ==> r.reason == if CheckedRange(offset, length) && 1 <= limit <= PAGE_LIMIT then Transport else InvalidArgument
  {
    yielded := [];
    if !CheckedRange(offset, length) {
      return yielded, Err(InvalidArgument);
    }
    ghost var all := Meets(s, offset, length);
    var cursor, more := 0, true;
    while more
      invariant 0 <= cursor <= all && yielded == Read(s, offset, length, cursor) && AllSurvive(s, offset, length, breaks, cursor)
      invariant !more ==> cursor == all && 1 <= limit <= PAGE_LIMIT
      decreases more, all - cursor
    {
      var plan := ResolveBlocks(s, offset, length, limit, cursor);
      if plan.Err? {
        return yielded, Err(plan.reason);
      }
      var outcome;
      yielded, outcome := ReadPage(s, offset, length, cursor, plan.value.grants, yielded, breaks);
      if outcome.Err? {
        return yielded, outcome;
      }
      cursor, more := cursor + |plan.value.grants|, plan.value.next.Some?;
    }
    return yielded, Ok(());
  }

  /** In particular a read whose streams never break. */
  lemma Unbroken(s: Snapshot, offset: nat, length: nat, breaks: nat -> seq<Break>)
    requires Valid(s) && forall j :: breaks(j) == []
    ensures AllSurvive(s, offset, length, breaks, Meets(s, offset, length))
  {
  }
}
