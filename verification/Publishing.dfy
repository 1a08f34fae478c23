/** Publishing a staged upload, giving it up, and keeping it alive. */
module Publishing {
  import opened Bytes
  import opened Layout
  import opened Tables
  import opened Steps
  import opened Progress
  import opened Leases
  import opened Handles
  import opened Commits
  import opened Writes
  import opened Manifest
  import opened Uploads
  import opened Staging

  // ---------------------------------------------------------------- when it may be published

  predicate AllCopied(t: Tables, domains: map<Id, Id>, healthy: set<Id>, op: Operation)
    requires op.Upload?
  {
    forall i :: i in op.allocations ==> EnoughCopies(t, domains, healthy, op.allocations[i].version, PolicyOf(t, op.file).w)
  }

  /** Every block of the manifest is allocated and stored. */
  predicate AllPresent(t: Tables, op: Operation)
    requires op.Upload? && op.blockSize > 0
  {
    forall i :: 0 <= i < CeilDiv(op.total, op.blockSize) ==> i in op.allocations && op.allocations[i].version in t.blocks
  }

  function Listed(op: Operation): seq<BlockRef>
    requires op.Upload? && op.blockSize > 0 && forall i :: 0 <= i < CeilDiv(op.total, op.blockSize) ==> i in op.allocations
  {
    seq(CeilDiv(op.total, op.blockSize), i requires 0 <= i < CeilDiv(op.total, op.blockSize) => op.allocations[i])
  }

  /** Exactly when CommitUpload succeeds; taken says that the name of a new file has been given away meanwhile. */
  predicate MayPublish(t: Tables, domains: map<Id, Id>, session: Id, o: Id, expired: bool, taken: bool, healthy: set<Id>) {
    && UploadFault(t, session, o, expired) == None && PolicyFault(t, t.ops[o]) == None
    && var op := t.ops[o];
    && AllCopied(t, domains, healthy, op)
    && op.sealed && op.blockSize > 0 && |op.pages| == PageCount(op)
    && AllPresent(t, op)
    && (op.base == ABSENT ==> !taken)
    && Readable(t, healthy, Listed(op))
  }

  /** An upload may go on as soon as it is begun, and its policy stands. */
  lemma BegunUploadGoesOn(t: Tables, u: Tables, domains: map<Id, Id>, cfg: Config, session: Id, existing: Id, overwrite: bool, expected: Id, total: nat, o: Id)
    requires Inv(t, domains) && MayUpload(t, cfg, existing, overwrite, expected, total, false) && UploadBegun(t, u, cfg, session, existing, total, o)
    requires t.uids <= o
    ensures UploadFault(u, session, o, false) == None && PolicyFault(u, u.ops[o]) == None
  {
    if Alive(t, existing) {
      assert NodeOk(t, existing);
    }
  }

  method CheckCopies(t: Tables, domains: map<Id, Id>, healthy: set<Id>, op: Operation) returns (ok: bool)
    requires op.Upload?
    ensures ok <==> AllCopied(t, domains, healthy, op)
  {
    var left := op.allocations.Keys;
    while left != {}
      invariant left <= op.allocations.Keys
      invariant forall i :: i in op.allocations && i !in left ==> EnoughCopies(t, domains, healthy, op.allocations[i].version, PolicyOf(t, op.file).w)
    {
      var i :| i in left;
      left := left - {i};
      if !EnoughCopies(t, domains, healthy, op.allocations[i].version, PolicyOf(t, op.file).w) {
        return false;
      }
    }
    return true;
  }

  method CheckPublish(t: Tables, domains: map<Id, Id>, session: Id, o: Id, expired: bool, taken: bool, healthy: set<Id>) returns (r: Result<seq<BlockRef>>)
    requires Inv(t, domains)
    ensures r.Ok? <==> MayPublish(t, domains, session, o, expired, taken, healthy)
    ensures r.Ok? ==> r.value == Listed(t.ops[o])
  {
    if o !in t.ops {
      return Err(NotFound);
    }
    var fault := PolicyFault(t, t.ops[o]);
    if fault.Some? {
      return Err(fault.value);
    }
    fault := UploadFault(t, session, o, expired);
    if fault.Some? {
      return Err(fault.value);
    }
    var op := t.ops[o];
    assert OpOk(t, o);
    UploadStaged(t, o);
    var copied := CheckCopies(t, domains, healthy, op);
    if !copied {
      return Err(InsufficientReplicas);
    }
    if !op.sealed {
      return Err(VersionConflict);
    }
    r := CheckManifest(t, op, taken, healthy);
  }

  method CheckManifest(t: Tables, op: Operation, taken: bool, healthy: set<Id>) returns (r: Result<seq<BlockRef>>)
    requires Staged(op)
    ensures r.Ok? <==>
      (|op.pages| == PageCount(op) && AllPresent(t, op) && (op.base == ABSENT ==> !taken) && Readable(t, healthy, Listed(op)))
    ensures r.Ok? ==> r.value == Listed(op)
  {
    r := Assemble(op);
    if r.Ok? {
      AssembledListed(op, r.value);
      if exists i :: 0 <= i < |r.value| && r.value[i].version !in t.blocks {
        return Err(DataUnavailable);
      }
      if op.base == ABSENT && taken {
        return Err(VersionConflict);
      }
      if !Readable(t, healthy, r.value) {
        return Err(DataUnavailable);
      }
    }
  }

  lemma AssembledListed(op: Operation, blocks: seq<BlockRef>)
    requires op.Upload? && op.blockSize > 0 && Assembled(op, blocks) && |blocks| == CeilDiv(op.total, op.blockSize)
    ensures forall i :: 0 <= i < |blocks| ==> i in op.allocations && blocks[i] == op.allocations[i]
    ensures blocks == Listed(op)
  {
    assert forall i :: 0 <= i < |blocks| ==> blocks[i] == blocks[i] && i in op.allocations;
  }

  // ---------------------------------------------------------------- what is published

  function UploadedSnapshot(t: Tables, op: Operation, blocks: seq<BlockRef>): Snapshot
    requires op.Upload?
  {
    Snapshot(op.file, op.contentEpoch, if op.base != ABSENT && op.base in t.snapshots then t.snapshots[op.base].version + 1 else 1,
      op.total, op.blockSize, blocks)
  }

  /** The snapshot enters as the file's next one, or as the first one of a new file. */
  function Shown(t: Tables, op: Operation, s: Snapshot): Tables
    requires op.Upload? && (op.base != ABSENT ==> op.file in t.nodes)
  {
    if op.base != ABSENT then Published(t, op.file, s) else Created(t, op.file, s, t.uids, 2, PolicyOf(t, op.file))
  }

  lemma UploadedOk(t: Tables, domains: map<Id, Id>, o: Id, healthy: set<Id>, s: Snapshot)
    requires Inv(t, domains) && o in t.ops && t.ops[o].Upload? && t.ops[o].phase == PREPARING && t.ops[o].blockSize > 0
    requires AllCopied(t, domains, healthy, t.ops[o]) && AllPresent(t, t.ops[o])
    requires s == UploadedSnapshot(t, t.ops[o], Listed(t.ops[o]))
    ensures Publishable(t, domains, t.ops[o].file, s)
  {
    var op := t.ops[o];
    assert OpOk(t, o);
    forall i | 0 <= i < |s.blocks|
      ensures s.blocks[i].version in t.blocks && t.blocks[s.blocks[i].version] == s.blocks[i] && s.blocks[i].file == op.file
      ensures Fits(s.blocks[i], i, op.blockSize, op.total)
      ensures |Domains(domains, ReceiptsOf(t, s.blocks[i].version))| >= PolicyOf(t, op.file).w
    {
      assert AllocationOk(t, o, op, i);
    }
  }

  lemma LiveLocksApart(t: Tables, i: Id, j: Id)
    requires LocksExclude(t) && i in t.locks && j in t.locks && LockLive(t, t.locks[i]) && LockLive(t, t.locks[j])
    requires t.locks[i].file == t.locks[j].file && t.locks[i].holder != t.locks[j].holder
    ensures !Clash(t.locks[i], t.locks[j])
  {
    assert Excludes(t, t.locks[i], t.locks[j]);
  }

  /** Nobody else holds a live lock on the file of an upload that may go on, so no fenced write is in the way. */
  lemma UploadRespects(t: Tables, u: Tables, domains: map<Id, Id>, session: Id, o: Id, s: Snapshot)
    requires Inv(t, domains) && UploadFault(t, session, o, false) == None && t.ops[o].file in t.nodes && u == Ended(t, o, COMMITTED)
    ensures Respects(u, t.ops[o].file, s)
  {
    var f := t.ops[o].file;
    HeldUpload(t, domains, session, o);
    forall q | q in u.ops && u.ops[q].Write? && u.ops[q].phase == PREPARING && u.ops[q].file == f && WriteFenced(u, u.ops[q])
      ensures false
    {
      assert OpOk(t, q) && WriteFenced(t, t.ops[q]) && t.ops[q].handle in t.handles;
      var i := FencedWriteLocks(t, q);
      LiveLocksApart(t, i, t.ops[o].fences[0].lock);
    }
  }

  lemma UploadUnclaimed(t: Tables, u: Tables, domains: map<Id, Id>, o: Id)
    requires Inv(t, domains) && o in t.ops && t.ops[o].Upload? && t.ops[o].phase == PREPARING && t.ops[o].base == ABSENT && u == Ended(t, o, COMMITTED)
    ensures Unclaimed(u, t.ops[o].file)
  {
    assert OpOk(t, o);
    forall q | q in u.ops && u.ops[q].Upload? && u.ops[q].phase == PREPARING && u.ops[q].base == ABSENT
      ensures u.ops[q].file != t.ops[o].file
    {
      assert OpOk(t, q);
    }
  }

  lemma ShownStep(t: Tables, u: Tables, v: Tables, domains: map<Id, Id>, session: Id, o: Id, healthy: set<Id>, s: Snapshot)
    requires Inv(t, domains) && UploadFault(t, session, o, false) == None && t.ops[o].blockSize > 0
    requires AllCopied(t, domains, healthy, t.ops[o]) && AllPresent(t, t.ops[o]) && s == UploadedSnapshot(t, t.ops[o], Listed(t.ops[o]))
    requires u == Ended(t, o, COMMITTED) && v == Shown(u, t.ops[o], s)
    ensures Inv(v, domains) && Evolves(t, v)
  {
    var f := t.ops[o].file;
    assert OpOk(t, o);
    EndedStep(t, domains, o, COMMITTED);
    UploadedOk(t, domains, o, healthy, s);
    StillPublishable(t, u, domains, o, s);
    if t.ops[o].base != ABSENT {
      UploadRespects(t, u, domains, session, o, s);
    } else {
      UploadUnclaimed(t, u, domains, o);
    }
    ShowStep(t, u, v, domains, o, s);
    EvolvesTransitive(t, u, v);
  }

  lemma StillPublishable(t: Tables, u: Tables, domains: map<Id, Id>, o: Id, s: Snapshot)
    requires o in t.ops && Publishable(t, domains, t.ops[o].file, s) && u == Ended(t, o, COMMITTED)
    ensures Publishable(u, domains, t.ops[o].file, s)
  {
  }

  lemma ShowStep(t: Tables, u: Tables, v: Tables, domains: map<Id, Id>, o: Id, s: Snapshot)
    requires Inv(u, domains) && o in t.ops && t.ops[o].Upload? && t.ops[o].phase == PREPARING && OpOk(t, o) && IdsOk(t)
    requires Publishable(u, domains, t.ops[o].file, s) && u == Ended(t, o, COMMITTED)
    requires s.epoch == t.ops[o].contentEpoch && s.blockSize == t.ops[o].blockSize
    requires t.ops[o].base != ABSENT ==>
      Alive(t, t.ops[o].file) && t.nodes[t.ops[o].file].snapshot == t.ops[o].base && Respects(u, t.ops[o].file, s)
    requires t.ops[o].base == ABSENT ==> Unclaimed(u, t.ops[o].file)
    requires v == Shown(u, t.ops[o], s)
    ensures Inv(v, domains) && Evolves(u, v)
  {
    var f := t.ops[o].file;
    if t.ops[o].base != ABSENT {
      PublishStep(u, v, domains, f, s);
    } else {
      CreateStep(u, v, domains, f, s, u.uids, 2, PolicyOf(u, f));
    }
  }

  method Show(tx: Transaction, ghost session: Id, o: Id, ghost healthy: set<Id>, blocks: seq<BlockRef>)
    requires tx.Valid() && UploadFault(tx.t, session, o, false) == None && tx.t.ops[o].blockSize > 0
    requires AllCopied(tx.t, tx.domains, healthy, tx.t.ops[o]) && AllPresent(tx.t, tx.t.ops[o]) && blocks == Listed(tx.t.ops[o])
    modifies tx
    ensures tx.Kept()
    ensures tx.t == Shown(Ended(old(tx.t), o, COMMITTED), old(tx.t).ops[o], UploadedSnapshot(old(tx.t), old(tx.t).ops[o], blocks))
  {
    var t := tx.t;
    var s := UploadedSnapshot(t, t.ops[o], blocks);
    var u := Ended(t, o, COMMITTED);
    var v := Shown(u, t.ops[o], s);
    ShownStep(t, u, v, tx.domains, session, o, healthy, s);
    tx.t := v;
  }

  /** CommitUpload: exactly if MayPublish says so, the staged manifest becomes the file's snapshot and the
      whole-file lock goes. */
  method CommitUpload(tx: Transaction, session: Id, o: Id, expired: bool, taken: bool, healthy: set<Id>) returns (r: Result<()>)
    requires tx.Valid()
    modifies tx
    ensures tx.Kept()
    ensures r.Ok? <==> MayPublish(old(tx.t), tx.domains, session, o, expired, taken, healthy)
    ensures r.Err? ==> tx.t == old(tx.t)
    ensures r.Ok? ==>
      var t, op := old(tx.t), old(tx.t).ops[o];
      tx.t == Released(Shown(Ended(t, o, COMMITTED), op, UploadedSnapshot(t, op, Listed(op))), o)
    ensures r.Ok? ==> UploadShown(old(tx.t), tx.t, o)
  {
    var t := tx.t;
    EvolvesReflexive(t, tx.domains);
    var checked := CheckPublish(t, tx.domains, session, o, expired, taken, healthy);
    if checked.Err? {
      return Err(checked.reason);
    }
    Show(tx, session, o, healthy, checked.value);
    ghost var v := tx.t;
    ReleaseOperation(tx, o);
    EvolvesTransitive(t, v, tx.t);
    HeldUpload(t, tx.domains, session, o);
    assert OpOk(t, o);
    ShownUpload(t, Ended(t, o, COMMITTED), v, tx.t, tx.domains, o, healthy, UploadedSnapshot(t, t.ops[o], checked.value));
    return Ok(());
  }

  /** What a published upload leaves behind: the file shows a new snapshot of the announced size, whose i-th block is the
      i-th announced one; the upload is committed and has let go of its lock. Nothing else has changed. */
  ghost predicate UploadShown(t: Tables, u: Tables, o: Id) {
    && o in t.ops && t.ops[o].Upload? && t.ops[o].blockSize > 0 && Alive(u, t.ops[o].file)
    && var op := t.ops[o];
    && var f, s := op.file, Current(u, op.file);
    && UploadPublished(t, u, o, s) && LetGo(t, u, {o})
    && s.file == f && s.total == op.total == |Content(s.blocks)| && s.blockSize == op.blockSize && s.epoch == op.contentEpoch
    && s.version == (if op.base != ABSENT && op.base in t.snapshots then t.snapshots[op.base].version + 1 else 1)
    && |s.blocks| == CeilDiv(op.total, op.blockSize)
    && (forall i :: 0 <= i < |s.blocks| ==> i in op.allocations && s.blocks[i] == op.allocations[i])
  }

  /** The file's next snapshot, or a new file's first one, is s; the operation is committed. */
  ghost predicate UploadPublished(t: Tables, u: Tables, o: Id, s: Snapshot)
    requires o in t.ops && t.ops[o].Upload?
  {
    var op, f := t.ops[o], t.ops[o].file;
    && f in u.nodes && u.nodes[f].alive && u.nodes[f].snapshot !in t.snapshots
    && u.snapshots == t.snapshots[u.nodes[f].snapshot := s] && u.nodes == t.nodes[f := u.nodes[f]]
    && (op.base != ABSENT ==> f in t.nodes && u.nodes[f].revision == t.nodes[f].revision + 1 && u.nodes[f].blockSize == t.nodes[f].blockSize)
    && (op.base == ABSENT ==> f !in t.nodes && u.nodes[f].blockSize == s.blockSize)
    && u.ops == t.ops[o := InPhase(op, COMMITTED)]
    && u == t.(uids := u.uids, snapshots := u.snapshots, nodes := u.nodes, ops := u.ops, locks := u.locks)
  }

  lemma ShownUpload(t: Tables, e: Tables, v: Tables, u: Tables, domains: map<Id, Id>, o: Id, healthy: set<Id>, s: Snapshot)
    requires Inv(t, domains) && o in t.ops && t.ops[o].Upload? && t.ops[o].phase == PREPARING && t.ops[o].blockSize > 0
    requires AllCopied(t, domains, healthy, t.ops[o]) && AllPresent(t, t.ops[o]) && s == UploadedSnapshot(t, t.ops[o], Listed(t.ops[o]))
    requires t.ops[o].file in t.policies && (t.ops[o].base == ABSENT ==> t.ops[o].file !in t.nodes)
    requires t.ops[o].base != ABSENT ==> Alive(t, t.ops[o].file)
    requires e == Ended(t, o, COMMITTED) && v == Shown(e, t.ops[o], s) && u == Released(v, o)
    ensures UploadShown(t, u, o)
  {
    UploadSpells(t, domains, o, healthy, s);
    if t.ops[o].base != ABSENT {
      ShownNext(t, e, v, u, o, s);
    } else {
      ShownFirst(t, e, v, u, o, s);
    }
    LocksLetGo(t, u, o);
    ShownAll(t, u, o, s);
  }

  lemma ShownAll(t: Tables, u: Tables, o: Id, s: Snapshot)
    requires o in t.ops && t.ops[o].Upload? && t.ops[o].blockSize > 0 && AllPresent(t, t.ops[o]) && s == UploadedSnapshot(t, t.ops[o], Listed(t.ops[o]))
    requires UploadPublished(t, u, o, s) && LetGo(t, u, {o}) && |Content(s.blocks)| == s.total
    ensures UploadShown(t, u, o)
  {
    assert Current(u, t.ops[o].file) == s;
    UploadedBlock(t, t.ops[o], s, 0);
    forall i | 0 <= i < |s.blocks| ensures i in t.ops[o].allocations && s.blocks[i] == t.ops[o].allocations[i] {
      UploadedBlock(t, t.ops[o], s, i);
    }
  }

  lemma UploadSpells(t: Tables, domains: map<Id, Id>, o: Id, healthy: set<Id>, s: Snapshot)
    requires Inv(t, domains) && o in t.ops && t.ops[o].Upload? && t.ops[o].phase == PREPARING && t.ops[o].blockSize > 0
    requires AllCopied(t, domains, healthy, t.ops[o]) && AllPresent(t, t.ops[o]) && s == UploadedSnapshot(t, t.ops[o], Listed(t.ops[o]))
    ensures |Content(s.blocks)| == s.total
  {
    UploadedOk(t, domains, o, healthy, s);
    ContentBlock(s.blocks, s.blockSize, s.total, 0);
  }

  lemma ShownNext(t: Tables, e: Tables, v: Tables, u: Tables, o: Id, s: Snapshot)
    requires IdsOk(t) && o in t.ops && t.ops[o].Upload? && t.ops[o].base != ABSENT && Alive(t, t.ops[o].file)
    requires e == Ended(t, o, COMMITTED) && v == Shown(e, t.ops[o], s) && u == Released(v, o)
    ensures UploadPublished(t, u, o, s) && u.locks == LocksWithout(t.locks, t.ops[o].fences, o)
  {
  }

  lemma ShownFirst(t: Tables, e: Tables, v: Tables, u: Tables, o: Id, s: Snapshot)
    requires IdsOk(t) && o in t.ops && t.ops[o].Upload? && t.ops[o].base == ABSENT && t.ops[o].file in t.policies && t.ops[o].file !in t.nodes
    requires e == Ended(t, o, COMMITTED) && v == Shown(e, t.ops[o], s) && u == Released(v, o)
    ensures UploadPublished(t, u, o, s) && u.locks == LocksWithout(t.locks, t.ops[o].fences, o)
  {
  }

  /** The bytes of the manifest from position at on are those of b. */
  ghost predicate InPlace(blocks: seq<BlockRef>, b: BlockRef, at: nat) {
    at + b.size <= |Content(blocks)| && Content(blocks)[at..at + b.size] == b.plain
  }

  lemma SnapshotBlock(s: Snapshot, i: nat)
    requires WellFormed(s.blocks, s.blockSize, s.total)
    ensures |Content(s.blocks)| == s.total
    ensures i < |s.blocks| ==> InPlace(s.blocks, s.blocks[i], Mul(i, s.blockSize))
  {
    ContentBlock(s.blocks, s.blockSize, s.total, i);
  }

  /** What an upload publishes: a well formed snapshot of the announced size, whose i-th block is the i-th
      announced one. */
  lemma UploadedContent(t: Tables, domains: map<Id, Id>, o: Id, healthy: set<Id>, s: Snapshot, i: nat)
    requires Inv(t, domains) && o in t.ops && t.ops[o].Upload? && t.ops[o].phase == PREPARING && t.ops[o].blockSize > 0
    requires AllCopied(t, domains, healthy, t.ops[o]) && AllPresent(t, t.ops[o]) && s == UploadedSnapshot(t, t.ops[o], Listed(t.ops[o]))
    ensures |Content(s.blocks)| == t.ops[o].total && WellFormed(s.blocks, s.blockSize, s.total)
    ensures i < |s.blocks| ==> i in t.ops[o].allocations && s.blocks[i].plain == t.ops[o].allocations[i].plain
    ensures i < |s.blocks| ==> InPlace(s.blocks, s.blocks[i], Mul(i, s.blockSize))
  {
    assert WellFormed(s.blocks, s.blockSize, s.total) by {
      UploadedOk(t, domains, o, healthy, s);
    }
    UploadedBlock(t, t.ops[o], s, i);
    SnapshotBlock(s, i);
  }

  lemma UploadedBlock(t: Tables, op: Operation, s: Snapshot, i: nat)
    requires op.Upload? && op.blockSize > 0 && AllPresent(t, op) && s == UploadedSnapshot(t, op, Listed(op))
    ensures s.total == op.total && s.blockSize == op.blockSize
    ensures i < |s.blocks| ==> i in op.allocations && s.blocks[i] == op.allocations[i]
  {
  }

  /** It takes prepared writes as well. */
  method AbortUpload(tx: Transaction, session: Id, o: Id) returns (r: Result<()>)
    requires tx.Valid()
    modifies tx
    ensures tx.Kept()
    ensures r.Ok? <==> o in old(tx.t).ops && old(tx.t).ops[o].session == session && old(tx.t).ops[o].phase != COMMITTED
    ensures r.Err? ==> tx.t == old(tx.t)
    ensures r.Ok? ==> tx.t == Released(Ended(old(tx.t), o, ABORTED), o)
    ensures r.Ok? ==> GivenUp(old(tx.t), tx.t, o)
  {
    var t := tx.t;
    EvolvesReflexive(t, tx.domains);
    if o !in t.ops || t.ops[o].session != session {
      return Err(PermissionDenied);
    }
    if t.ops[o].phase == COMMITTED {
      return Err(VersionConflict);
    }
    EndedStep(t, tx.domains, o, ABORTED);
    tx.t := Ended(t, o, ABORTED);
    ReleaseOperation(tx, o);
    EvolvesTransitive(t, Ended(t, o, ABORTED), tx.t);
    EndedGivenUp(t, tx.t, o);
    return Ok(());
  }

  /** The lock lives on as long as the operation's new deadline, at most five minutes. */
  method RenewUpload(tx: Transaction, session: Id, o: Id, expired: bool, seconds: nat) returns (r: Result<()>)
    requires tx.Valid() && seconds <= TRANSFER_SECONDS
    modifies tx
    ensures tx.Kept()
    ensures r.Ok? <==> UploadFault(old(tx.t), session, o, expired) == None
    ensures r.Err? ==> tx.t == old(tx.t)
    ensures r.Ok? ==>
      var t := old(tx.t);
      && |t.ops[o].fences| == 1 && t.ops[o].fences[0].lock in t.locks
      && var l := t.ops[o].fences[0].lock;
         tx.t == t.(locks := t.locks[l := t.locks[l].(deadline := t.clock + seconds)])
  {
    var t := tx.t;
    EvolvesReflexive(t, tx.domains);
    var fault := UploadFault(t, session, o, expired);
    if fault.Some? {
      return Err(fault.value);
    }
    HeldUpload(t, tx.domains, session, o);
    var l := t.ops[o].fences[0].lock;
    var u := t.(locks := t.locks[l := t.locks[l].(deadline := t.clock + seconds)]);
    LeaseStepOn(t, u, tx.domains);
    tx.t := u;
    return Ok(());
  }
}
