/** How block versions get their bytes: a node patches a base, the control records what it reports. */
module Blocks {
  import opened Bytes
  import opened Layout
  import opened Tables
  import opened Steps
  import opened Progress
  import opened Leases
  import opened Handles
  import opened Commits
  import opened Writes
  import Patch

  function Share(op: Operation, part: Part): seq<byte>
    requires op.Write? && part.deltaOffset + part.length <= |op.delta|
  {
    op.delta[part.deltaOffset..part.deltaOffset + part.length]
  }

  /** A part starts inside its base or right behind it, so the patch never leaves a hole. */
  lemma NoHole(t: Tables, domains: map<Id, Id>, o: Id, s: Snapshot, k: nat)
    requires Applies(t, domains, o, s) && k < |t.ops[o].parts|
    ensures var op, p := t.ops[o], t.ops[o].parts[k];
      && p.part.deltaOffset + p.part.length <= |op.delta|
      && p.part.blockOffset <= |p.base.plain| == p.base.size
      && p.part.index == p.base.index && p.base.file == op.file
  {
    var op, p := t.ops[o], t.ops[o].parts[k];
    FencedWriteCannotConflict(t, domains, o);
    PartPlace(t, domains, o, s, k);
    var size, index := op.blockSize, p.part.index;
    PartBounds(op.offset, |op.delta|, size, k);
    CeilDivBounds(s.total, size);
    assert p.part == PartAt(op.offset, |op.delta|, size, k);
    PieceSize(Mul(index, size), size, s.total, op.offset, op.offset + |op.delta|);
    if index < |s.blocks| {
      assert Fits(s.blocks[index], index, size, s.total);
    }
  }

  /** The node streams the patched block out of its base; the result is the splice, whatever the records are. */
  method PatchBlock(p: PlannedPart, share: seq<byte>, records: seq<seq<byte>>) returns (b: BlockRef)
    requires p.part.blockOffset <= |p.base.plain| == p.base.size && p.part.length == |share|
    requires Flatten(records) == p.base.plain
    ensures b == BlockRef(p.base.file, p.replacement, p.part.index, TouchedSize(p), Splice(p.base.plain, p.part.blockOffset, share))
  {
    Patch.AuthorizedSize(p.base.plain, p.part.blockOffset, share);
    var chunks := Patch.ResultChunks(records, p.part.blockOffset, share, TouchedSize(p));
    if chunks.Err? {
      assert false; // the sparse check cannot fire for the size the control authorizes
    }
    b := BlockRef(p.base.file, p.replacement, p.part.index, TouchedSize(p), Flatten(chunks.value));
  }

  /** A version belongs to one block of one operation. */
  lemma VersionOwner(t: Tables, domains: map<Id, Id>, o: Id, s: Snapshot, k: nat, b: BlockRef)
    requires Applies(t, domains, o, s) && k < |t.ops[o].parts| && b.version == t.ops[o].parts[k].replacement
    requires Replaces(b, t.ops[o].parts[k].base, t.ops[o].parts[k].part, t.ops[o].delta)
    ensures Storable(t, b)
  {
    assert OpOk(t, o) && PartOk(t, o, t.ops[o], t.ops[o].parts[k]);
    forall q | q in t.ops && t.ops[q].phase == PREPARING ensures Expects(t.ops[q], b) {
      OnlyPart(t, domains, o, s, k, b, q);
    }
  }

  lemma OnlyPart(t: Tables, domains: map<Id, Id>, o: Id, s: Snapshot, k: nat, b: BlockRef, q: Id)
    requires Applies(t, domains, o, s) && k < |t.ops[o].parts| && b.version == t.ops[o].parts[k].replacement
    requires Replaces(b, t.ops[o].parts[k].base, t.ops[o].parts[k].part, t.ops[o].delta) && PartOk(t, o, t.ops[o], t.ops[o].parts[k])
    requires q in t.ops && t.ops[q].phase == PREPARING
    ensures Expects(t.ops[q], b)
  {
    assert OpOk(t, q);
    if t.ops[q].Write? {
      forall j | 0 <= j < |t.ops[q].parts| && t.ops[q].parts[j].replacement == b.version
        ensures Replaces(b, t.ops[q].parts[j].base, t.ops[q].parts[j].part, t.ops[q].delta)
      {
        assert PartOk(t, q, t.ops[q], t.ops[q].parts[j]);
        PartPlace(t, domains, o, s, j);
        PartPlace(t, domains, o, s, k);
      }
    } else {
      forall i | i in t.ops[q].allocations ensures t.ops[q].allocations[i].version != b.version {
        assert AllocationOk(t, q, t.ops[q], i);
      }
    }
  }

  /** Exactly when a patched block is recorded: the write still is fenced, k is one of its parts, and the node
      read its base undamaged. */
  ghost predicate MayReport(t: Tables, session: Id, o: Id, k: nat, records: seq<seq<byte>>) {
    && WriteFault(t, session, o) == None && AllHeld(t, session, t.ops[o].fences)
    && k < |t.ops[o].parts| && Flatten(records) == t.ops[o].parts[k].base.plain
  }

  /** PatchBlock on the node and its report: the replacement is recorded as its base with the part's share of the
      delta written over it, held by that node. */
  method ReportPatch(tx: Transaction, session: Id, o: Id, k: nat, node: Id, records: seq<seq<byte>>) returns (r: Result<BlockRef>)
    requires tx.Valid()
    modifies tx
    ensures tx.Kept()
    ensures r.Ok? <==> MayReport(old(tx.t), session, o, k, records)
    ensures r.Err? ==> tx.t == old(tx.t)
    ensures r.Ok? ==> tx.t == Stored(old(tx.t), r.value, node) && Holds(old(tx.t), tx.t, r.value, node)
    ensures r.Ok? ==> r.value.version == old(tx.t).ops[o].parts[k].replacement
    ensures r.Ok? ==> Replaces(r.value, old(tx.t).ops[o].parts[k].base, old(tx.t).ops[o].parts[k].part, old(tx.t).ops[o].delta)
  {
    var t := tx.t;
    EvolvesReflexive(t, tx.domains);
    var fault := WriteFault(t, session, o);
    if fault.Some? {
      return Err(fault.value);
    }
    var op := t.ops[o];
    fault := ValidateFences(t, session, op.fences);
    if fault.Some? {
      return Err(fault.value);
    }
    if k >= |op.parts| {
      return Err(PermissionDenied);
    }
    if Flatten(records) != op.parts[k].base.plain {
      return Err(DataUnavailable);
    }
    var b := ProducePatch(t, tx.domains, session, o, k, records);
    StoreStep(t, Stored(t, b, node), tx.domains, b, node);
    StoredHolds(t, b, node);
    tx.t := Stored(t, b, node);
    return Ok(b);
  }

  method ProducePatch(t: Tables, ghost domains: map<Id, Id>, session: Id, o: Id, k: nat, records: seq<seq<byte>>) returns (b: BlockRef)
    requires Inv(t, domains) && MayReport(t, session, o, k, records)
    ensures Storable(t, b) && b.version == t.ops[o].parts[k].replacement
    ensures Replaces(b, t.ops[o].parts[k].base, t.ops[o].parts[k].part, t.ops[o].delta)
  {
    var p := t.ops[o].parts[k];
    CheckedWrite(t, domains, session, o);
    FencedWriteCannotConflict(t, domains, o);
    ghost var s := Current(t, t.ops[o].file);
    FirstPart(s.blocks, t.ops[o].blockSize, s.total, t.ops[o].offset);
    NoHole(t, domains, o, s, k);
    b := PatchBlock(p, Share(t.ops[o], p.part), records);
    VersionOwner(t, domains, o, s, k, b);
  }
}
