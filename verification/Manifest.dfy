/** Assembling a manifest out of staged pages. */
module Manifest {
  import opened Bytes
  import opened Layout
  import opened Tables

  /** What the invariant says of a prepared upload's pages and allocations. */
  ghost predicate Staged(op: Operation) {
    && op.Upload? && op.blockSize > 0
    && (forall i {:trigger op.allocations[i]} :: i in op.allocations ==>
          i < CeilDiv(op.total, op.blockSize) && Sized(op.allocations[i], i, op.blockSize, op.total))
    && (forall p {:trigger PageOk(op, p)} :: p in op.pages ==> PageOk(op, p))
  }

  lemma UploadStaged(t: Tables, o: Id)
    requires o in t.ops && t.ops[o].Upload? && t.ops[o].phase == PREPARING && OpOk(t, o)
    ensures Staged(t.ops[o])
  {
    var op := t.ops[o];
    forall i | i in op.allocations ensures i < CeilDiv(op.total, op.blockSize) && Sized(op.allocations[i], i, op.blockSize, op.total) {
      assert AllocationOk(t, o, op, i);
    }
  }

  predicate Below(k: nat, n: nat) { k < n }

  function Range(n: nat): (s: set<nat>)
    ensures |s| == n
    ensures forall k {:trigger Below(k, n)} {:trigger k in s} :: k in s <==> Below(k, n)
  {
    if n == 0 then {} else assert n - 1 !in Range(n - 1); Range(n - 1) + {n - 1}
  }

  /** n numbers below n are all of them. */
  lemma FullRange(s: set<nat>, n: nat, k: nat)
    requires |s| == n && k < n && forall x :: x in s ==> x < n
    ensures k in s
  {
    assert Below(k, n);
    forall x | x in s ensures x in Range(n) {
      assert Below(x, n);
    }
    if k !in s {
      SubsetSize(s, Range(n) - {k});
    }
  }

  /** Every staged page lies inside the manifest, so the right number of pages is all of them. */
  lemma AllPages(op: Operation, p: nat)
    requires Staged(op) && |op.pages| == CeilDiv(CeilDiv(op.total, op.blockSize), PAGE) && p < |op.pages|
    ensures p in op.pages && PageOk(op, p) && PAGE * p < CeilDiv(op.total, op.blockSize)
  {
    var count := CeilDiv(op.total, op.blockSize);
    CeilDivBounds(count, PAGE);
    forall x | x in op.pages.Keys ensures x < |op.pages| {
      assert PageOk(op, x);
      MulIs(x, PAGE);
    }
    assert |op.pages.Keys| == |op.pages|;
    FullRange(op.pages.Keys, |op.pages|, p);
    assert PageOk(op, p);
  }

  /** The manifest's prefix of n blocks is what was allocated for them. */
  ghost predicate Assembled(op: Operation, blocks: seq<BlockRef>)
    requires op.Upload?
  {
    forall i {:trigger blocks[i]} :: 0 <= i < |blocks| ==> i in op.allocations && blocks[i] == op.allocations[i]
  }

  lemma NextPage(op: Operation, blocks: seq<BlockRef>, p: nat)
    requires Staged(op) && Assembled(op, blocks) && p in op.pages
    requires |blocks| == Min(PAGE * p, CeilDiv(op.total, op.blockSize))
    ensures Assembled(op, blocks + op.pages[p])
    ensures |blocks + op.pages[p]| == Min(PAGE * (p + 1), CeilDiv(op.total, op.blockSize))
  {
    assert PageOk(op, p);
    var all := blocks + op.pages[p];
    forall i | 0 <= i < |all| ensures i in op.allocations && all[i] == op.allocations[i] {
      if i >= |blocks| {
        assert |blocks| == PAGE * p && all[i] == op.pages[p][i - |blocks|];
      } else {
        assert all[i] == blocks[i];
      }
    }
  }

  /** manifest(): a complete set of staged pages always assembles, into exactly the allocated blocks in order;
      its checks of length, sum and indices cannot fail. */
  method Assemble(op: Operation) returns (r: Result<seq<BlockRef>>)
    requires Staged(op)
    ensures r.Ok? <==> |op.pages| == CeilDiv(CeilDiv(op.total, op.blockSize), PAGE)
    ensures r.Ok? ==> |r.value| == CeilDiv(op.total, op.blockSize) && Assembled(op, r.value)
    ensures r.Ok? ==> Sizes(r.value) == op.total
  {
    var count := CeilDiv(op.total, op.blockSize);
    if |op.pages| != CeilDiv(count, PAGE) {
      return Err(ChecksumMismatch);
    }
    var blocks, p := [], 0;
    while p < |op.pages|
      invariant 0 <= p <= |op.pages| && |blocks| == Min(PAGE * p, count) && Assembled(op, blocks)
    {
      AllPages(op, p);
      NextPage(op, blocks, p);
      blocks := blocks + (if p in op.pages then op.pages[p] else []);
      p := p + 1;
    }
    CeilDivBounds(count, PAGE);
    MulIs(|op.pages|, PAGE);
    PrefixSizes(blocks, op.blockSize, op.total, |blocks|);
    CeilDivBounds(op.total, op.blockSize);
    assert blocks[..|blocks|] == blocks;
    if |blocks| != count || Sizes(blocks) != op.total || exists i :: 0 <= i < |blocks| && blocks[i].index != i {
      assert false; // staged pages fit together
    }
    return Ok(blocks);
  }
}
