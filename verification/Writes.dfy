/** Range writes: prepared under fences, patched block by block, published as one copy-on-write snapshot. */
module Writes {
  import opened Bytes
  import opened Layout
  import opened Tables
  import opened Steps
  import opened Progress
  import opened Leases
  import opened Handles
  import opened Commits

  // ---------------------------------------------------------------- the operation is still ours

  /** validate_policy: why an operation's policy no longer stands. */
  function PolicyFault(t: Tables, op: Operation): (r: Option<Reason>)
    ensures r == None <==> op.policy == PolicyOf(t, op.file).revision && PolicyOf(t, op.file).state != PROMOTING
  {
    if op.policy == PolicyOf(t, op.file).revision && PolicyOf(t, op.file).state != PROMOTING then None else Some(VersionConflict)
  }

  predicate OwnWrite(t: Tables, session: Id, o: Id) {
    o in t.ops && t.ops[o].Write? && t.ops[o].session == session
  }

  /** write_operation(): everything but the fences. */
  function WriteFault(t: Tables, session: Id, o: Id): (r: Option<Reason>)
    ensures r == None <==>
      (OwnWrite(t, session, o) && t.ops[o].phase == PREPARING && t.ops[o].controlEpoch == t.epoch
       && WritableFault(t, session, t.ops[o].handle) == None
       && t.handles[t.ops[o].handle].busy == o && t.handles[t.ops[o].handle].revision == t.ops[o].handleRevision)
  {
    if !OwnWrite(t, session, o) then
      Some(PermissionDenied)
    else
      var op := t.ops[o];
      if !(op.phase == PREPARING && op.controlEpoch == t.epoch) then Some(OperationExpired)
      else if WritableFault(t, session, op.handle).Some? then WritableFault(t, session, op.handle)
      else if !(t.handles[op.handle].busy == o && t.handles[op.handle].revision == op.handleRevision) then Some(HandleBusy)
      else None
  }

  method ValidateFences(t: Tables, session: Id, fences: seq<Fence>) returns (fault: Option<Reason>)
    ensures fault == None <==> AllHeld(t, session, fences)
  {
    var k := 0;
    while k < |fences|
      invariant 0 <= k <= |fences| && AllHeld(t, session, fences[..k])
    {
      fault := FenceFault(t, session, fences[k]);
      if fault.Some? {
        assert fences[k] in fences;
        return;
      }
      assert fences[..k + 1] == fences[..k] + [fences[k]];
      k := k + 1;
    }
    assert fences[..k] == fences;
    fault := None;
  }

  /** A write that passes every check is fenced, hence uncontested. */
  lemma CheckedWrite(t: Tables, domains: map<Id, Id>, session: Id, o: Id)
    requires Inv(t, domains) && WriteFault(t, session, o) == None && AllHeld(t, session, t.ops[o].fences)
    ensures t.ops[o].phase == PREPARING && WriteFenced(t, t.ops[o]) && WriteShape(t.ops[o]) && Uncontested(t, t.ops[o])
  {
    FencedWriteCannotConflict(t, domains, o);
  }

  // ---------------------------------------------------------------- CommitWrite

  /** The client names the stored replacement of part k, and it is durable. */
  predicate ChangeOk(t: Tables, domains: map<Id, Id>, healthy: set<Id>, op: Operation, changes: seq<BlockRef>, k: nat)
    requires op.Write? && k < |op.parts| && k < |changes|
  {
    && op.parts[k].replacement in t.blocks && changes[k] == t.blocks[op.parts[k].replacement]
    && EnoughCopies(t, domains, healthy, op.parts[k].replacement, PolicyOf(t, op.file).w)
  }

  predicate ChangesOk(t: Tables, domains: map<Id, Id>, healthy: set<Id>, op: Operation, changes: seq<BlockRef>, n: nat)
    requires op.Write? && n <= |op.parts| && n <= |changes|
  {
    forall k {:trigger ChangeOk(t, domains, healthy, op, changes, k)} :: 0 <= k < n ==> ChangeOk(t, domains, healthy, op, changes, k)
  }

  predicate Readable(t: Tables, healthy: set<Id>, blocks: seq<BlockRef>) {
    forall b :: b in blocks ==> LocationsOf(t, b.version) * healthy != {}
  }

  /** Exactly when CommitWrite succeeds. Nothing here asks whether the base blocks, the content epoch or the file
      size are still those of the write: under live fences they are. */
  ghost predicate MayCommit(t: Tables, domains: map<Id, Id>, session: Id, o: Id, i: Id, revision: nat, fences: seq<Fence>,
    changes: seq<BlockRef>, healthy: set<Id>)
  {
    && WriteFault(t, session, o) == None && PolicyFault(t, t.ops[o]) == None
    && var op := t.ops[o];
    && AllHeld(t, session, op.fences)
    && i == op.handle && revision == t.handles[op.handle].revision && fences == op.fences
    && |changes| == |op.parts| && ChangesOk(t, domains, healthy, op, changes, |changes|)
    && Alive(t, op.file) && op.blockSize > 0 && Div(op.offset, op.blockSize) <= |Current(t, op.file).blocks|
    && Readable(t, healthy, Patched(Current(t, op.file).blocks, Div(op.offset, op.blockSize), changes))
  }

  lemma PatchedNext(blocks: seq<BlockRef>, first: nat, rs: seq<BlockRef>, k: nat)
    requires k < |rs| && first <= |blocks|
    ensures var before := Patched(blocks, first, rs[..k]);
      && first + k <= |before|
      && (first + k < |before| <==> first + k < |blocks|)
      && (first + k < |blocks| ==> before[first + k] == blocks[first + k])
      && Patched(blocks, first, rs[..k + 1]) == (if first + k == |before| then before + [rs[k]] else before[first + k := rs[k]])
  {
  }

  /** A write that is fenced, and the snapshot it is applied to. */
  ghost predicate Applies(t: Tables, domains: map<Id, Id>, o: Id, s: Snapshot) {
    && Inv(t, domains) && o in t.ops && t.ops[o].Write? && t.ops[o].phase == PREPARING && WriteFenced(t, t.ops[o])
    && Target(t, t.ops[o], s)
  }

  /** Part k goes to the block after the first k of the range, which still is the part's base. */
  lemma PartPlace(t: Tables, domains: map<Id, Id>, o: Id, s: Snapshot, k: nat)
    requires Applies(t, domains, o, s) && k < |t.ops[o].parts|
    ensures var op, part := t.ops[o], t.ops[o].parts[k];
      && part.base.index == part.part.index == Div(op.offset, op.blockSize) + k
      && BlockAt(s.blocks, part.base.index, op.file) == part.base
      && (part.replacement in t.blocks ==>
           var b := t.blocks[part.replacement];
           b.version == part.replacement && b.file == op.file && b.index == part.base.index && b.size == TouchedSize(part))
  {
    var op := t.ops[o];
    FencedWriteCannotConflict(t, domains, o);
    assert OpOk(t, o) && PartOk(t, o, op, op.parts[k]);
    assert op.parts[k].part == PartAt(op.offset, |op.delta|, op.blockSize, k);
    var index := op.parts[k].part.index;
    if index < |s.blocks| {
      assert Fits(s.blocks[index], index, s.blockSize, s.total);
    }
  }

  method CheckChange(t: Tables, domains: map<Id, Id>, o: Id, ghost s: Snapshot, changes: seq<BlockRef>, k: nat, healthy: set<Id>)
    returns (fault: Option<Reason>)
    requires Applies(t, domains, o, s) && k < |t.ops[o].parts| && k < |changes|
    ensures fault == None <==> ChangeOk(t, domains, healthy, t.ops[o], changes, k)
  {
    var op, part, change := t.ops[o], t.ops[o].parts[k], changes[k];
    PartPlace(t, domains, o, s, k);
    if !(change.version == part.replacement && change.file == op.file && change.index == part.base.index && change.size == TouchedSize(part)) {
      return Some(VersionConflict);
    }
    if !(change.version in t.blocks && t.blocks[change.version] == change) {
      return Some(DataUnavailable);
    }
    if !EnoughCopies(t, domains, healthy, change.version, PolicyOf(t, op.file).w) {
      return Some(InsufficientReplicas);
    }
    return None;
  }

  /** The commit loop: each part's base must be what is current, and is replaced in place or appended. */
  method ApplyChanges(t: Tables, domains: map<Id, Id>, o: Id, s: Snapshot, changes: seq<BlockRef>, healthy: set<Id>)
    returns (r: Result<seq<BlockRef>>)
    requires Applies(t, domains, o, s)
    ensures r.Ok? <==> |changes| == |t.ops[o].parts| && ChangesOk(t, domains, healthy, t.ops[o], changes, |changes|)
    ensures r.Ok? ==> r.value == Patched(s.blocks, Div(t.ops[o].offset, t.ops[o].blockSize), changes)
  {
    var op := t.ops[o];
    if |changes| != |op.parts| {
      return Err(VersionConflict);
    }
    var blocks, k := s.blocks, 0;
    ghost var first := Div(op.offset, op.blockSize);
    assert changes[..0] == [];
    while k < |changes|
      invariant 0 <= k <= |changes| && blocks == Patched(s.blocks, first, changes[..k])
      invariant ChangesOk(t, domains, healthy, op, changes, k)
    {
      PartPlace(t, domains, o, s, k);
      PatchedNext(s.blocks, first, changes, k);
      var index := op.parts[k].base.index;
      if BlockAt(blocks, index, op.file) != op.parts[k].base {
        assert false; // nobody has replaced a base block under live fences
      }
      var fault := CheckChange(t, domains, o, s, changes, k, healthy);
      if fault.Some? {
        assert !ChangeOk(t, domains, healthy, op, changes, k);
        return Err(fault.value);
      }
      if index == |blocks| {
        blocks := blocks + [changes[k]];
      } else {
        blocks := blocks[index := changes[k]];
      }
      k := k + 1;
    }
    assert changes[..k] == changes;
    return Ok(blocks);
  }

  function Ended(t: Tables, o: Id, phase: Phase): Tables
    requires o in t.ops
  {
    t.(ops := t.ops[o := t.ops[o].(phase := phase)])
  }

  /** A handle moves on to the current snapshot of its file. */
  function MovedOn(t: Tables, i: Id): Tables
    requires i in t.handles && t.handles[i].file in t.nodes
  {
    t.(handles := t.handles[i := t.handles[i].(snapshot := t.nodes[t.handles[i].file].snapshot, revision := t.handles[i].revision + 1)])
  }

  lemma EndedStep(t: Tables, domains: map<Id, Id>, o: Id, phase: Phase)
    requires Inv(t, domains) && o in t.ops && phase != PREPARING
    ensures Inv(Ended(t, o, phase), domains) && Evolves(t, Ended(t, o, phase))
  {
    var u := Ended(t, o, phase);
    assert forall q :: q in t.ops ==> PhaseEnds(t.ops[q], u.ops[q]);
    EndStep(t, u, domains);
  }

  lemma EndedRespects(t: Tables, domains: map<Id, Id>, o: Id, s: Snapshot, next: Snapshot)
    requires Ready(t, domains, o) && Target(t, t.ops[o], s) && next == NextSnapshot(s, t.ops[o], Replacements(t, t.ops[o]))
    ensures Respects(Ended(t, o, COMMITTED), t.ops[o].file, next)
  {
    var f, u := t.ops[o].file, Ended(t, o, COMMITTED);
    forall q | q in u.ops && u.ops[q].Write? && u.ops[q].phase == PREPARING && u.ops[q].file == f && WriteFenced(u, u.ops[q])
      ensures Uncontested(Published(u, f, next), u.ops[q])
    {
      assert u.ops[q] == t.ops[q];
      ReadyRespects(t, domains, o, s, q);
      assert Uncontested(Published(t, f, next), t.ops[q]);
    }
  }

  /** Ending the operation and publishing its snapshot. */
  lemma PublishWriteStep(t: Tables, domains: map<Id, Id>, healthy: set<Id>, o: Id, s: Snapshot, next: Snapshot)
    requires Ready(t, domains, o) && Target(t, t.ops[o], s) && AllDurable(t, domains, healthy, t.ops[o])
    requires next == NextSnapshot(s, t.ops[o], Replacements(t, t.ops[o]))
    ensures var u := Published(Ended(t, o, COMMITTED), t.ops[o].file, next); Inv(u, domains) && Evolves(t, u)
  {
    var f, u := t.ops[o].file, Ended(t, o, COMMITTED);
    EndedStep(t, domains, o, COMMITTED);
    ReadySnapshot(t, domains, o, s);
    ReadyPublishable(t, domains, healthy, o, s);
    assert Publishable(u, domains, f, next);
    EndedRespects(t, domains, o, s, next);
    assert NodeOk(t, f);
    PublishStep(u, Published(u, f, next), domains, f, next);
    EvolvesTransitive(t, u, Published(u, f, next));
  }

  lemma MovedOnStep(t: Tables, domains: map<Id, Id>, i: Id)
    requires Inv(t, domains) && i in t.handles && Alive(t, t.handles[i].file)
    ensures Inv(MovedOn(t, i), domains) && Evolves(t, MovedOn(t, i))
  {
    HandleStep(t, MovedOn(t, i), domains, i);
  }

  /** The tables once write o is published as next. */
  function Committed(t: Tables, o: Id, next: Snapshot): Tables
    requires o in t.ops && t.ops[o].Write? && t.ops[o].handle in t.handles
    requires t.handles[t.ops[o].handle].file == t.ops[o].file && t.ops[o].file in t.nodes
  {
    Released(MovedOn(Published(Ended(t, o, COMMITTED), t.ops[o].file, next), t.ops[o].handle), o)
  }

  /** What a published write leaves behind: the file shows root, which spells what was current with the delta spliced in;
      the handle stands for root and is free; the operation is committed and has let go of its locks. Nothing else has
      changed. */
  ghost predicate WriteShown(t: Tables, u: Tables, o: Id, root: Id) {
    && o in t.ops && t.ops[o].Write? && Alive(t, t.ops[o].file) && t.ops[o].handle in t.handles && root in u.snapshots
    && var op, i, f := t.ops[o], t.ops[o].handle, t.ops[o].file;
    && var now, next := Current(t, f), u.snapshots[root];
    && op.offset <= |Content(now.blocks)|
    && Content(next.blocks) == Splice(Content(now.blocks), op.offset, op.delta)
    && next.total == Max(now.total, op.offset + |op.delta|) && next.file == f
    && next.epoch == now.epoch && next.version == now.version + 1 && next.blockSize == now.blockSize
    && root !in t.snapshots && u.snapshots == t.snapshots[root := next]
    && u.nodes == t.nodes[f := Node(root, true, t.nodes[f].revision + 1, t.nodes[f].blockSize)]
    && u.handles == t.handles[i := t.handles[i].(snapshot := root, revision := t.handles[i].revision + 1, busy := ABSENT)]
    && u.ops == t.ops[o := InPhase(op, COMMITTED)]
    && LetGo(t, u, {o})
    && u == t.(uids := root + 1, snapshots := u.snapshots, nodes := u.nodes, handles := u.handles, ops := u.ops, locks := u.locks)
  }

  lemma CommittedShows(t: Tables, u: Tables, domains: map<Id, Id>, o: Id, next: Snapshot)
    requires Ready(t, domains, o) && Alive(t, t.ops[o].file) && Target(t, t.ops[o], Current(t, t.ops[o].file))
    requires next == NextSnapshot(Current(t, t.ops[o].file), t.ops[o], Replacements(t, t.ops[o]))
    requires t.ops[o].handle in t.handles && t.handles[t.ops[o].handle].file == t.ops[o].file && t.handles[t.ops[o].handle].busy == o
    requires u == Committed(t, o, next)
    ensures WriteShown(t, u, o, t.uids)
  {
    ReadySnapshot(t, domains, o, Current(t, t.ops[o].file));
    CommittedParts(t, u, domains, o, next);
  }

  lemma CommittedParts(t: Tables, u: Tables, domains: map<Id, Id>, o: Id, next: Snapshot)
    requires Inv(t, domains) && o in t.ops && t.ops[o].Write? && Alive(t, t.ops[o].file)
    requires t.ops[o].handle in t.handles && t.handles[t.ops[o].handle].file == t.ops[o].file && t.handles[t.ops[o].handle].busy == o
    requires u == Committed(t, o, next)
    ensures var op, i, f, root := t.ops[o], t.ops[o].handle, t.ops[o].file, t.uids;
      && root !in t.snapshots && u.snapshots == t.snapshots[root := next]
      && u.nodes == t.nodes[f := Node(root, true, t.nodes[f].revision + 1, t.nodes[f].blockSize)]
      && u.handles == t.handles[i := t.handles[i].(snapshot := root, revision := t.handles[i].revision + 1, busy := ABSENT)]
      && u.ops == t.ops[o := InPhase(op, COMMITTED)]
      && LetGo(t, u, {o})
      && u == t.(uids := root + 1, snapshots := u.snapshots, nodes := u.nodes, handles := u.handles, ops := u.ops, locks := u.locks)
  {
    var v := MovedOn(Published(Ended(t, o, COMMITTED), t.ops[o].file, next), t.ops[o].handle);
    assert v.locks == t.locks && v.ops[o].fences == t.ops[o].fences;
    LocksLetGo(t, u, o);
  }

  /** Only the locks and the fences matter. */
  lemma LocksLetGo(t: Tables, u: Tables, o: Id)
    requires ActivesOk(t) && o in t.ops && u.locks == LocksWithout(t.locks, t.ops[o].fences, o)
    ensures LetGo(t, u, {o})
  {
    ReleasedLetsGo(t, Released(t, o), o);
  }

  method Publish(tx: Transaction, ghost healthy: set<Id>, o: Id, s: Snapshot, ghost next: Snapshot, blocks: seq<BlockRef>)
    requires tx.Valid() && Ready(tx.t, tx.domains, o) && Target(tx.t, tx.t.ops[o], s) && AllDurable(tx.t, tx.domains, healthy, tx.t.ops[o])
    requires next == NextSnapshot(s, tx.t.ops[o], Replacements(tx.t, tx.t.ops[o])) && blocks == next.blocks
    modifies tx
    ensures tx.Kept()
    ensures tx.t == Published(Ended(old(tx.t), o, COMMITTED), old(tx.t).ops[o].file, next)
  {
    var op := tx.t.ops[o];
    var snapshot := Snapshot(op.file, op.contentEpoch, s.version + 1, Max(s.total, Max(op.baseTotal, op.offset + |op.delta|)), op.blockSize, blocks);
    PublishWriteStep(tx.t, tx.domains, healthy, o, s, next);
    tx.t := Published(Ended(tx.t, o, COMMITTED), op.file, snapshot);
  }

  method MoveHandle(tx: Transaction, i: Id)
    requires tx.Valid() && i in tx.t.handles && Alive(tx.t, tx.t.handles[i].file)
    modifies tx
    ensures tx.Kept() && tx.t == MovedOn(old(tx.t), i)
  {
    MovedOnStep(tx.t, tx.domains, i);
    tx.t := MovedOn(tx.t, i);
  }

  /** Publish the snapshot, move the handle to it and let go of the locks. */
  method Finish(tx: Transaction, ghost healthy: set<Id>, o: Id, s: Snapshot, ghost next: Snapshot, blocks: seq<BlockRef>)
    requires tx.Valid() && Ready(tx.t, tx.domains, o) && Target(tx.t, tx.t.ops[o], s) && AllDurable(tx.t, tx.domains, healthy, tx.t.ops[o])
    requires next == NextSnapshot(s, tx.t.ops[o], Replacements(tx.t, tx.t.ops[o])) && blocks == next.blocks
    requires tx.t.ops[o].handle in tx.t.handles && tx.t.handles[tx.t.ops[o].handle].file == tx.t.ops[o].file
    modifies tx
    ensures tx.Kept() && tx.t == Committed(old(tx.t), o, next)
  {
    ghost var t0 := tx.t;
    var i := tx.t.ops[o].handle;
    Publish(tx, healthy, o, s, next, blocks);
    ghost var t1 := tx.t;
    MoveHandle(tx, i);
    ghost var t2 := tx.t;
    EvolvesTransitive(t0, t1, t2);
    ReleaseOperation(tx, o);
    EvolvesTransitive(t0, t2, tx.t);
  }

  /** A write that passes every check is ready, and what the client sent are its stored replacements. */
  lemma CheckedChanges(t: Tables, domains: map<Id, Id>, healthy: set<Id>, o: Id, s: Snapshot, changes: seq<BlockRef>)
    requires Applies(t, domains, o, s)
    requires |changes| == |t.ops[o].parts| && ChangesOk(t, domains, healthy, t.ops[o], changes, |changes|)
    ensures Ready(t, domains, o) && AllDurable(t, domains, healthy, t.ops[o])
    ensures changes == Replacements(t, t.ops[o])
  {
    forall k | 0 <= k < |changes|
      ensures t.ops[o].parts[k].replacement in t.blocks && changes[k] == t.blocks[t.ops[o].parts[k].replacement]
      ensures EnoughCopies(t, domains, healthy, t.ops[o].parts[k].replacement, PolicyOf(t, t.ops[o].file).w)
    {
      assert ChangeOk(t, domains, healthy, t.ops[o], changes, k);
    }
  }

  /** The checks of CommitWrite, in order, up to the new list of blocks. */
  method CheckCommit(t: Tables, domains: map<Id, Id>, session: Id, o: Id, i: Id, revision: nat, fences: seq<Fence>,
    changes: seq<BlockRef>, healthy: set<Id>) returns (r: Result<seq<BlockRef>>)
    requires Inv(t, domains)
    ensures r.Ok? <==> MayCommit(t, domains, session, o, i, revision, fences, changes, healthy)
    ensures r.Ok? ==> Applies(t, domains, o, Current(t, t.ops[o].file))
    ensures r.Ok? ==> r.value == Patched(Current(t, t.ops[o].file).blocks, Div(t.ops[o].offset, t.ops[o].blockSize), changes)
  {
    if o !in t.ops {
      return Err(NotFound);
    }
    var policy := PolicyFault(t, t.ops[o]);
    if policy.Some? {
      return Err(policy.value);
    }
    var fault := WriteFault(t, session, o);
    if fault.Some? {
      return Err(fault.value);
    }
    var op := t.ops[o];
    fault := ValidateFences(t, session, op.fences);
    if fault.Some? {
      return Err(fault.value);
    }
    CheckedWrite(t, domains, session, o);
    var s := Current(t, op.file);
    if !(i == op.handle && revision == t.handles[op.handle].revision) {
      return Err(VersionConflict);
    }
    if fences != op.fences {
      return Err(LockExpired);
    }
    assert OpOk(t, o) && NodeOk(t, op.file) && SnapshotOk(t.snapshots[t.nodes[op.file].snapshot]);
    FirstPart(s.blocks, op.blockSize, s.total, op.offset);
    r := ApplyChanges(t, domains, o, s, changes, healthy);
    if r.Ok? {
      if op.growing && s.total != op.baseTotal {
        assert false; // nobody else has grown the file under a live size lock
      }
      if !Readable(t, healthy, r.value) {
        return Err(DataUnavailable);
      }
    }
  }

  /** CommitWrite refines a splice: it succeeds exactly if MayCommit says so, and the content it publishes is the
      content current at that instant, not the handle's own base, with the delta written at its offset. */
  method CommitWrite(tx: Transaction, session: Id, o: Id, i: Id, revision: nat, fences: seq<Fence>, changes: seq<BlockRef>, healthy: set<Id>)
    returns (r: Result<Id>)
    requires tx.Valid()
    modifies tx
    ensures tx.Kept()
    ensures r.Ok? <==> MayCommit(old(tx.t), tx.domains, session, o, i, revision, fences, changes, healthy)
    ensures r.Err? ==> tx.t == old(tx.t)
    ensures r.Ok? ==>
      var t, op := old(tx.t), old(tx.t).ops[o];
      && r.value == t.uids && i in t.handles && t.handles[i].file == op.file
      && tx.t == Committed(t, o, NextSnapshot(Current(t, op.file), op, changes))
    ensures r.Ok? ==>
      var t, op := old(tx.t), old(tx.t).ops[o];
      && Alive(tx.t, op.file) && op.offset <= |Content(Current(t, op.file).blocks)|
      && Content(Current(tx.t, op.file).blocks) == Splice(Content(Current(t, op.file).blocks), op.offset, op.delta)
      && Current(tx.t, op.file).total == Max(Current(t, op.file).total, op.offset + |op.delta|)
    ensures r.Ok? ==> i == old(tx.t).ops[o].handle && WriteShown(old(tx.t), tx.t, o, r.value)
  {
    var t := tx.t;
    EvolvesReflexive(t, tx.domains);
    var checked := CheckCommit(t, tx.domains, session, o, i, revision, fences, changes, healthy);
    if checked.Err? {
      return Err(checked.reason);
    }
    var op := t.ops[o];
    var s := Current(t, op.file);
    CheckedChanges(t, tx.domains, healthy, o, s, changes);
    ReadySnapshot(t, tx.domains, o, s);
    assert OpOk(t, o);
    Finish(tx, healthy, o, s, NextSnapshot(s, op, changes), checked.value);
    CommittedShows(t, tx.t, tx.domains, o, NextSnapshot(s, op, changes));
    return Ok(t.uids);
  }

  /** An operation is given up: it is aborted, has let go of its locks and its handle, and nothing else has changed. */
  ghost predicate GivenUp(t: Tables, u: Tables, o: Id) {
    && o in t.ops && u.ops == t.ops[o := InPhase(t.ops[o], ABORTED)]
    && u == t.(ops := u.ops, locks := u.locks, handles := u.handles) && LetGo(t, u, {o}) && Freed(t, u, {o})
  }

  lemma EndedGivenUp(t: Tables, u: Tables, o: Id)
    requires ActivesOk(t) && o in t.ops && u == Released(Ended(t, o, ABORTED), o)
    ensures GivenUp(t, u, o)
  {
    LocksLetGo(t, u, o);
  }

  /** A write that is not published yet is given up: nothing of the file changes, its locks and its handle are free. */
  method AbortWrite(tx: Transaction, session: Id, o: Id) returns (r: Result<()>)
    requires tx.Valid()
    modifies tx
    ensures tx.Kept()
    ensures r.Ok? <==> OwnWrite(old(tx.t), session, o) && old(tx.t).ops[o].phase != COMMITTED
    ensures r.Err? ==> tx.t == old(tx.t)
    ensures r.Ok? ==> tx.t == Released(Ended(old(tx.t), o, ABORTED), o)
    ensures r.Ok? ==> GivenUp(old(tx.t), tx.t, o)
  {
    var t := tx.t;
    EvolvesReflexive(t, tx.domains);
    if !OwnWrite(t, session, o) {
      return Err(PermissionDenied);
    }
    if t.ops[o].phase == COMMITTED {
      return Err(VersionConflict);
    }
    EndedStep(t, tx.domains, o, ABORTED);
    tx.t := Ended(t, o, ABORTED);
    ReleaseOperation(tx, o);
    EvolvesTransitive(t, Ended(t, o, ABORTED), tx.t);
    EndedGivenUp(t, tx.t, o);
    return Ok(());
  }
}
