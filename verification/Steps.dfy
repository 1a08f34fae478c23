/** The elementary steps that the access commands are made of, each shown to keep the invariant. */
module Steps {
  import opened Bytes
  import opened Layout
  import opened Tables

  // ---------------------------------------------------------------- what an operation depends on

  /** Block versions keep their assignment, their record and their tombstone. */
  ghost predicate SameStore(t: Tables, t': Tables) {
    && t.uids <= t'.uids && t'.retired == t.retired && t'.blocks == t.blocks
    && (forall b :: b in t.assignments ==> b in t'.assignments && t'.assignments[b] == t.assignments[b])
    && t.policies.Keys <= t'.policies.Keys
  }

  /** The locks of these fences are as they were, or gone. */
  ghost predicate SameLocks(t: Tables, t': Tables, o: Id, fences: seq<Fence>) {
    forall f :: f in fences && f.lock < t.uids && f.lock in t'.locks ==>
      (f.lock in t.locks
      && FenceOf(f.lock, t'.locks[f.lock]) == FenceOf(f.lock, t.locks[f.lock])
      && t'.locks[f.lock].file == t.locks[f.lock].file
      && t'.locks[f.lock].session == t.locks[f.lock].session
      && (o in t.locks[f.lock].active ==> o in t'.locks[f.lock].active))
  }

  ghost predicate WriteUndisturbed(t: Tables, t': Tables, o: Id, op: Operation)
    requires op.Write?
  {
    && (op.handle in t.handles ==>
         && op.handle in t'.handles
         && t'.handles[op.handle].busy == t.handles[op.handle].busy
         && t'.handles[op.handle].file == t.handles[op.handle].file
         && t'.handles[op.handle].session == t.handles[op.handle].session)
    && SameLocks(t, t', o, op.fences)
    && (op.file in t.nodes && t.nodes[op.file].alive ==> op.file in t'.nodes && t'.nodes[op.file].alive)
    && (WriteFenced(t', op) ==> WriteFenced(t, op) && (Uncontested(t, op) ==> Uncontested(t', op)))
  }

  ghost predicate UploadUndisturbed(t: Tables, t': Tables, o: Id, op: Operation)
    requires op.Upload?
  {
    && SameLocks(t, t', o, op.fences)
    && (op.base == ABSENT && op.file in t'.nodes ==> op.file in t.nodes)
    && (op.base != ABSENT && op.base < t.uids && Alive(t', op.file) && t'.nodes[op.file].snapshot == op.base ==>
         Alive(t, op.file) && t'.nodes[op.file] == t.nodes[op.file] && Current(t', op.file) == Current(t, op.file))
  }

  ghost predicate Undisturbed(t: Tables, t': Tables, o: Id, op: Operation) {
    if op.Write? then WriteUndisturbed(t, t', o, op) else UploadUndisturbed(t, t', o, op)
  }

  lemma OpFrame(t: Tables, t': Tables, o: Id)
    requires o in t.ops && OpOk(t, o) && o in t'.ops && t'.ops[o] == t.ops[o]
    requires SameStore(t, t')
    requires t.ops[o].phase == PREPARING ==> Undisturbed(t, t', o, t.ops[o])
    ensures OpOk(t', o)
  {
    var op := t.ops[o];
    if op.phase == PREPARING {
      if op.Write? {
        forall j | 0 <= j < |op.parts| ensures PartOk(t', o, op, op.parts[j]) {
          assert PartOk(t, o, op, op.parts[j]);
        }
      } else {
        forall i | i in op.allocations ensures AllocationOk(t', o, op, i) {
          assert AllocationOk(t, o, op, i);
        }
      }
    }
  }

  /** All of them at once. */
  lemma OpsFrame(t: Tables, t': Tables)
    requires OpsOk(t) && t'.ops == t.ops && SameStore(t, t')
    requires forall o :: o in t.ops && t.ops[o].phase == PREPARING ==> Undisturbed(t, t', o, t.ops[o])
    ensures OpsOk(t')
  {
    forall o | o in t'.ops ensures OpOk(t', o) {
      OpFrame(t, t', o);
    }
  }

  /** The same kind of operation, relying on the same locks of the same handle. */
  predicate SameRole(a: Operation, b: Operation) {
    a.Write? == b.Write? && a.fences == b.fences && (a.Write? ==> a.handle == b.handle)
  }

  /** Locks and their operations are untouched. */
  lemma LocksFrame(t: Tables, t': Tables)
    requires HoldersOk(t) && LocksExclude(t) && ActivesOk(t)
    requires t'.locks == t.locks && t'.clock == t.clock && t'.epoch == t.epoch && t.uids <= t'.uids
    requires forall i :: i in t'.handles ==> (i in t.handles && t'.handles[i].file == t.handles[i].file) || t.uids <= i
    requires forall o :: o in t.ops ==> o in t'.ops && SameRole(t.ops[o], t'.ops[o])
    requires forall i :: i in t.handles ==> i in t'.handles && t'.handles[i].busy == t.handles[i].busy
    ensures HoldersOk(t') && LocksExclude(t') && ActivesOk(t')
  {
    forall i | i in t'.locks ensures ActiveOk(t', i) && HolderOk(t', t'.locks[i]) {
      assert ActiveOk(t, i) && HolderOk(t, t.locks[i]);
    }
    forall i, j | i in t'.locks && j in t'.locks ensures Excludes(t', t'.locks[i], t'.locks[j]) {
      assert Excludes(t, t.locks[i], t.locks[j]);
    }
  }

  /** Nodes, their snapshots and what backs them are untouched. */
  lemma NodesFrame(t: Tables, t': Tables, domains: map<Id, Id>)
    requires NodesOk(t) && Durable(t, domains)
    requires t'.nodes == t.nodes && t'.snapshots == t.snapshots && t'.policies == t.policies && t'.receipts == t.receipts
    ensures NodesOk(t') && Durable(t', domains)
  {
    forall f | f in t'.nodes ensures NodeOk(t', f) && DurableOk(t', domains, f) {
      assert NodeOk(t, f) && DurableOk(t, domains, f);
    }
  }

  /** Nothing new is pinned, and snapshots and block records are untouched. */
  lemma PinnedFrame(t: Tables, t': Tables)
    requires PinnedRecorded(t) && t'.snapshots == t.snapshots && t'.blocks == t.blocks
    requires forall s :: s in t.snapshots && Pinned(t', s) ==> Pinned(t, s)
    ensures PinnedRecorded(t')
  {
    forall s | s in t'.snapshots && Pinned(t', s) ensures Recorded(t', s) {
      assert Recorded(t, s);
    }
  }

  // ---------------------------------------------------------------- leases only

  /** Only leases change: time passes, deadlines move, locks come and go, handles close. */
  ghost predicate LeasesOnly(t: Tables, t': Tables) {
    && t.clock <= t'.clock && t.epoch <= t'.epoch && t.uids <= t'.uids && t.sequence <= t'.sequence
    && t' == t.(clock := t'.clock, epoch := t'.epoch, uids := t'.uids, sequence := t'.sequence, handles := t'.handles, locks := t'.locks)
  }

  /** No handle comes back to life, and a handle keeps what it stands for. */
  ghost predicate HandlesFade(t: Tables, t': Tables) {
    && t'.handles.Keys == t.handles.Keys
    && forall i :: i in t.handles ==> HandleFades(t, t', t.handles[i], t'.handles[i])
  }

  ghost predicate HandleFades(t: Tables, t': Tables, h: Handle, h': Handle) {
    && h'.file == h.file && h'.snapshot == h.snapshot && h'.session == h.session && h'.busy == h.busy
    && (HandleLive(t', h') ==> HandleLive(t, h))
  }

  /** No lock comes back to life; a new one has a new identifier and clashes with no live lock of another owner. */
  ghost predicate LocksFade(t: Tables, t': Tables) {
    forall i :: i in t'.locks ==> t.uids <= i < t'.uids || (i in t.locks && LockFades(t, t', t.locks[i], t'.locks[i]))
  }

  ghost predicate LockFades(t: Tables, t': Tables, l: Lock, l': Lock) {
    l' == l.(deadline := l'.deadline) && (LockLive(t', l') ==> LockLive(t, l))
  }

  ghost predicate NewLocksFit(t: Tables, t': Tables) {
    forall i :: i in t'.locks && t.uids <= i ==>
      && t'.locks[i].active == {} && HolderOk(t', t'.locks[i])
      && Isolated(t', i)
  }

  /** Lock i clashes with no other live lock of another owner. */
  ghost predicate Isolated(t: Tables, i: Id)
    requires i in t.locks
  {
    forall j :: j in t.locks && LockLive(t, t.locks[j]) && t.locks[j].file == t.locks[i].file && !SameOwner(t.locks[j], t.locks[i])
      ==> !Clash(t.locks[j], t.locks[i])
  }

  lemma LeaseLocks(t: Tables, t': Tables)
    requires LeasesOnly(t, t') && HandlesFade(t, t') && LocksFade(t, t') && NewLocksFit(t, t')
    requires HoldersOk(t) && LocksExclude(t) && ActivesOk(t)
    ensures HoldersOk(t') && LocksExclude(t') && ActivesOk(t')
  {
    forall i | i in t'.locks ensures ActiveOk(t', i) && HolderOk(t', t'.locks[i]) {
      if i < t.uids {
        assert ActiveOk(t, i) && HolderOk(t, t.locks[i]);
      }
    }
    forall i, j | i in t'.locks && j in t'.locks ensures Excludes(t', t'.locks[i], t'.locks[j]) {
      if t.uids <= i {
        assert Isolated(t', i);
      } else if t.uids <= j {
        assert Isolated(t', j);
      } else {
        assert Excludes(t, t.locks[i], t.locks[j]);
      }
    }
  }

  lemma LeaseUndisturbed(t: Tables, t': Tables, o: Id)
    requires LeasesOnly(t, t') && HandlesFade(t, t') && LocksFade(t, t')
    requires o in t.ops && OpOk(t, o) && t.ops[o].phase == PREPARING
    ensures Undisturbed(t, t', o, t.ops[o])
  {
    var op := t.ops[o];
    assert forall f :: f in op.fences && f.lock < t.uids && f.lock in t'.locks ==> f.lock in t.locks && LockFades(t, t', t.locks[f.lock], t'.locks[f.lock]);
    if op.Write? {
      assert Uncontested(t', op) <==> Uncontested(t, op);
    }
  }

  lemma LeaseStep(t: Tables, t': Tables, domains: map<Id, Id>)
    requires Inv(t, domains)
    requires LeasesOnly(t, t') && HandlesFade(t, t') && LocksFade(t, t') && NewLocksFit(t, t')
    ensures Inv(t', domains) && Evolves(t, t')
  {
    LeaseLocks(t, t');
    forall o | o in t.ops && t.ops[o].phase == PREPARING ensures Undisturbed(t, t', o, t.ops[o]) {
      LeaseUndisturbed(t, t', o);
    }
    OpsFrame(t, t');
    LeaseHandles(t, t');
    NodesFrame(t, t', domains);
    PinnedFrame(t, t');
  }

  lemma LeaseHandles(t: Tables, t': Tables)
    requires LeasesOnly(t, t') && HandlesFade(t, t') && HandlesOk(t)
    ensures HandlesOk(t')
  {
    forall i | i in t'.handles ensures HandleOk(t', i) {
      assert HandleOk(t, i) && HandleFades(t, t', t.handles[i], t'.handles[i]);
    }
  }

  // ---------------------------------------------------------------- handles

  /** A handle that is not busy appears, or one moves on, to the current snapshot of a live file. */
  ghost predicate HandleMoves(t: Tables, t': Tables, i: Id) {
    && i in t'.handles && t' == t.(uids := t'.uids, handles := t.handles[i := t'.handles[i]])
    && Alive(t, t'.handles[i].file) && t'.handles[i].snapshot == t.nodes[t'.handles[i].file].snapshot
    && if i in t.handles then
         && t'.uids == t.uids
         && t'.handles[i] == t.handles[i].(snapshot := t'.handles[i].snapshot, revision := t.handles[i].revision + 1)
       else i == t.uids && t'.uids == t.uids + 1 && t'.handles[i].busy == ABSENT
  }

  lemma HandleUndisturbed(t: Tables, t': Tables, i: Id, o: Id)
    requires IdsOk(t) && HandleMoves(t, t', i) && o in t.ops && t.ops[o].phase == PREPARING && OpOk(t, o)
    ensures Undisturbed(t, t', o, t.ops[o])
  {
    assert t.ops[o].Write? ==> (Uncontested(t', t.ops[o]) <==> Uncontested(t, t.ops[o]));
  }

  lemma HandleStep(t: Tables, t': Tables, domains: map<Id, Id>, i: Id)
    requires Inv(t, domains) && HandleMoves(t, t', i)
    ensures Inv(t', domains) && Evolves(t, t')
  {
    forall o | o in t.ops && t.ops[o].phase == PREPARING ensures Undisturbed(t, t', o, t.ops[o]) {
      HandleUndisturbed(t, t', i, o);
    }
    OpsFrame(t, t');
    LocksFrame(t, t');
    HandleRest(t, t', i);
    HandleHandles(t, t', i);
    NodesFrame(t, t', domains);
    PinnedFrame(t, t');
  }

  lemma HandleRest(t: Tables, t': Tables, i: Id)
    requires IdsOk(t) && BlocksOk(t) && SnapshotsOk(t) && HandleMoves(t, t', i)
    ensures IdsOk(t') && BlocksOk(t') && SnapshotsOk(t') && Evolves(t, t')
  {
  }

  lemma HandleHandles(t: Tables, t': Tables, i: Id)
    requires NodesOk(t) && HandlesOk(t) && HandleMoves(t, t', i)
    ensures HandlesOk(t')
  {
    forall j | j in t'.handles ensures HandleOk(t', j) {
      if j != i {
        assert HandleOk(t, j);
      } else {
        assert NodeOk(t, t'.handles[i].file);
      }
    }
  }

  // ---------------------------------------------------------------- publication

  function Published(t: Tables, f: Id, s: Snapshot): Tables
    requires f in t.nodes
  {
    t.(uids := t.uids + 1, snapshots := t.snapshots[t.uids := s],
       nodes := t.nodes[f := t.nodes[f].(snapshot := t.uids, revision := t.nodes[f].revision + 1)])
  }

  /** s is a well formed snapshot of f, all of its blocks recorded and as durable as f's policy asks. */
  ghost predicate Publishable(t: Tables, domains: map<Id, Id>, f: Id, s: Snapshot) {
    && SnapshotOk(s) && s.file == f
    && (forall b :: b in s.blocks ==> b.version in t.blocks && t.blocks[b.version] == b)
    && (forall b :: b in s.blocks ==> |Domains(domains, ReceiptsOf(t, b.version))| >= PolicyOf(t, f).first)
  }

  /** No prepared write that still is fenced loses what it was prepared on. */
  ghost predicate Respects(t: Tables, f: Id, s: Snapshot)
    requires f in t.nodes
  {
    forall o :: o in t.ops && t.ops[o].Write? && t.ops[o].phase == PREPARING && t.ops[o].file == f && WriteFenced(t, t.ops[o])
      ==> Uncontested(Published(t, f, s), t.ops[o])
  }

  lemma PublishUndisturbed(t: Tables, f: Id, s: Snapshot, o: Id)
    requires IdsOk(t) && Alive(t, f) && Respects(t, f, s) && o in t.ops && t.ops[o].phase == PREPARING
    ensures Undisturbed(t, Published(t, f, s), o, t.ops[o])
  {
    var op, t' := t.ops[o], Published(t, f, s);
    if op.Write? && op.file != f && Uncontested(t, op) {
      assert Current(t', op.file) == Current(t, op.file);
    }
  }

  lemma PublishStep(t: Tables, t': Tables, domains: map<Id, Id>, f: Id, s: Snapshot)
    requires Inv(t, domains) && Alive(t, f)
    requires Publishable(t, domains, f, s) && s.blockSize == t.nodes[f].blockSize && NotAhead(Current(t, f), s)
    requires Respects(t, f, s)
    requires t' == Published(t, f, s)
    ensures Inv(t', domains) && Evolves(t, t')
  {
    forall o | o in t.ops && t.ops[o].phase == PREPARING ensures Undisturbed(t, t', o, t.ops[o]) {
      PublishUndisturbed(t, f, s, o);
    }
    OpsFrame(t, t');
    LocksFrame(t, t');
    PublishHandles(t, f, s);
    PublishNodes(t, domains, f, s);
    PublishPinned(t, domains, f, s);
  }

  lemma PublishNodes(t: Tables, domains: map<Id, Id>, f: Id, s: Snapshot)
    requires IdsOk(t) && NodesOk(t) && Durable(t, domains) && Alive(t, f)
    requires Publishable(t, domains, f, s) && s.blockSize == t.nodes[f].blockSize
    ensures NodesOk(Published(t, f, s)) && Durable(Published(t, f, s), domains)
  {
    var t' := Published(t, f, s);
    forall g | g in t'.nodes ensures NodeOk(t', g) && DurableOk(t', domains, g) {
      assert NodeOk(t, g) && DurableOk(t, domains, g);
    }
  }

  lemma PublishPinned(t: Tables, domains: map<Id, Id>, f: Id, s: Snapshot)
    requires IdsOk(t) && PinnedRecorded(t) && f in t.nodes && Publishable(t, domains, f, s)
    ensures PinnedRecorded(Published(t, f, s))
  {
    var t' := Published(t, f, s);
    forall x | x in t'.snapshots && Pinned(t', x) ensures Recorded(t', x) {
      if x < t.uids {
        PinnedBefore(t, f, s, x);
        assert Recorded(t, x);
      }
    }
  }

  lemma PublishHandles(t: Tables, f: Id, s: Snapshot)
    requires IdsOk(t) && NodesOk(t) && HandlesOk(t) && Alive(t, f) && s.blockSize == t.nodes[f].blockSize && NotAhead(Current(t, f), s)
    ensures HandlesOk(Published(t, f, s))
  {
    var t' := Published(t, f, s);
    forall i | i in t'.handles ensures HandleOk(t', i) {
      assert HandleOk(t, i);
      assert HandleLive(t, t.handles[i]) ==> NodeOk(t, t.handles[i].file);
    }
  }

  lemma PinnedBefore(t: Tables, f: Id, s: Snapshot, x: Id)
    requires f in t.nodes && Pinned(Published(t, f, s), x) && x < t.uids
    ensures Pinned(t, x)
  {
    var t' := Published(t, f, s);
    if g :| g in t'.nodes && t'.nodes[g].alive && t'.nodes[g].snapshot == x {
      assert g != f;
      assert g in t.nodes && t.nodes[g].alive && t.nodes[g].snapshot == x;
    } else {
      var i :| i in t'.handles && HandleLive(t', t'.handles[i]) && t'.handles[i].snapshot == x;
      assert HandleLive(t, t.handles[i]);
    }
  }

  function Created(t: Tables, f: Id, s: Snapshot, root: Id, revision: nat, p: Policy): Tables {
    t.(uids := root + 1, snapshots := t.snapshots[root := s],
       nodes := t.nodes[f := Node(root, true, revision, s.blockSize)],
       policies := if f in t.policies then t.policies else t.policies[f := p])
  }

  /** f is not a file yet, and no upload is going to make it one. */
  ghost predicate Unclaimed(t: Tables, f: Id) {
    && f !in t.nodes
    && forall o :: o in t.ops && t.ops[o].Upload? && t.ops[o].phase == PREPARING && t.ops[o].base == ABSENT ==> t.ops[o].file != f
  }

  lemma CreateStep(t: Tables, t': Tables, domains: map<Id, Id>, f: Id, s: Snapshot, root: Id, revision: nat, p: Policy)
    requires Inv(t, domains) && t.uids <= root && ABSENT < f < root && Unclaimed(t, f)
    requires Publishable(t, domains, f, s) && (f in t.policies || s.blocks == [])
    requires t' == Created(t, f, s, root, revision, p)
    ensures Inv(t', domains) && Evolves(t, t')
  {
    forall o | o in t.ops && t.ops[o].phase == PREPARING ensures Undisturbed(t, t', o, t.ops[o]) {
      CreateUndisturbed(t, f, s, root, revision, p, o);
    }
    OpsFrame(t, t');
    LocksFrame(t, t');
    CreateRest(t, f, s, root, revision, p);
    CreateHandles(t, f, s, root, revision, p);
    CreateNodes(t, domains, f, s, root, revision, p);
    CreatePinned(t, domains, f, s, root, revision, p);
  }

  lemma CreateRest(t: Tables, f: Id, s: Snapshot, root: Id, revision: nat, p: Policy)
    requires IdsOk(t) && BlocksOk(t) && SnapshotsOk(t) && t.uids <= root && ABSENT < f < root && SnapshotOk(s)
    ensures var t' := Created(t, f, s, root, revision, p); IdsOk(t') && BlocksOk(t') && SnapshotsOk(t') && Evolves(t, t')
  {
  }

  lemma CreatePinned(t: Tables, domains: map<Id, Id>, f: Id, s: Snapshot, root: Id, revision: nat, p: Policy)
    requires IdsOk(t) && PinnedRecorded(t) && t.uids <= root && f !in t.nodes && Publishable(t, domains, f, s)
    ensures PinnedRecorded(Created(t, f, s, root, revision, p))
  {
    var t' := Created(t, f, s, root, revision, p);
    forall x | x in t'.snapshots && Pinned(t', x) ensures Recorded(t', x) {
      if x != root {
        PinnedAlready(t, f, s, root, revision, p, x);
        assert Recorded(t, x);
      }
    }
  }

  lemma CreateNodes(t: Tables, domains: map<Id, Id>, f: Id, s: Snapshot, root: Id, revision: nat, p: Policy)
    requires IdsOk(t) && NodesOk(t) && Durable(t, domains) && t.uids <= root && f !in t.nodes
    requires Publishable(t, domains, f, s) && (f in t.policies || s.blocks == [])
    ensures NodesOk(Created(t, f, s, root, revision, p)) && Durable(Created(t, f, s, root, revision, p), domains)
  {
    var t' := Created(t, f, s, root, revision, p);
    forall g | g in t'.nodes ensures NodeOk(t', g) && DurableOk(t', domains, g) {
      if g != f {
        assert NodeOk(t, g) && DurableOk(t, domains, g);
      }
    }
  }

  lemma CreateUndisturbed(t: Tables, f: Id, s: Snapshot, root: Id, revision: nat, p: Policy, o: Id)
    requires IdsOk(t) && NodesOk(t) && t.uids <= root && Unclaimed(t, f) && o in t.ops && t.ops[o].phase == PREPARING && OpOk(t, o)
    ensures Undisturbed(t, Created(t, f, s, root, revision, p), o, t.ops[o])
  {
    var op, t' := t.ops[o], Created(t, f, s, root, revision, p);
    if op.Write? {
      assert op.file != f;
      assert Uncontested(t, op) ==> Current(t', op.file) == Current(t, op.file);
    } else if op.file != f && Alive(t', op.file) && t'.nodes[op.file].snapshot == op.base {
      assert NodeOk(t, op.file);
    }
  }

  lemma PinnedAlready(t: Tables, f: Id, s: Snapshot, root: Id, revision: nat, p: Policy, x: Id)
    requires f !in t.nodes && x != root && Pinned(Created(t, f, s, root, revision, p), x)
    ensures Pinned(t, x)
  {
    var t' := Created(t, f, s, root, revision, p);
    if g :| g in t'.nodes && t'.nodes[g].alive && t'.nodes[g].snapshot == x {
      assert g in t.nodes && t.nodes[g].alive && t.nodes[g].snapshot == x;
    } else {
      var i :| i in t'.handles && HandleLive(t', t'.handles[i]) && t'.handles[i].snapshot == x;
      assert HandleLive(t, t.handles[i]);
    }
  }

  lemma CreateHandles(t: Tables, f: Id, s: Snapshot, root: Id, revision: nat, p: Policy)
    requires IdsOk(t) && HandlesOk(t) && NodesOk(t) && t.uids <= root && f !in t.nodes
    ensures HandlesOk(Created(t, f, s, root, revision, p))
  {
    var t' := Created(t, f, s, root, revision, p);
    forall i | i in t'.handles ensures HandleOk(t', i) {
      assert HandleOk(t, i);
      assert HandleLive(t, t.handles[i]) ==> NodeOk(t, t.handles[i].file);
    }
  }

  function Removed(t: Tables, f: Id): Tables
    requires f in t.nodes
  {
    t.(nodes := t.nodes[f := t.nodes[f].(alive := false, revision := t.nodes[f].revision + 1)])
  }

  lemma RemoveUndisturbed(t: Tables, f: Id, o: Id)
    requires f in t.nodes && o in t.ops && t.ops[o].phase == PREPARING && (t.ops[o].Write? ==> t.ops[o].file != f)
    ensures Undisturbed(t, Removed(t, f), o, t.ops[o])
  {
    var op, t' := t.ops[o], Removed(t, f);
    if op.Write? {
      assert Uncontested(t, op) ==> Current(t', op.file) == Current(t, op.file);
    }
  }

  /** A file is removed once no prepared write is left on it. */
  lemma RemoveStep(t: Tables, t': Tables, domains: map<Id, Id>, f: Id)
    requires Inv(t, domains) && f in t.nodes
    requires forall o :: o in t.ops && t.ops[o].Write? && t.ops[o].file == f ==> t.ops[o].phase != PREPARING
    requires t' == Removed(t, f)
    ensures Inv(t', domains) && Evolves(t, t')
  {
    forall o | o in t.ops && t.ops[o].phase == PREPARING ensures Undisturbed(t, t', o, t.ops[o]) {
      RemoveUndisturbed(t, f, o);
    }
    OpsFrame(t, t');
    LocksFrame(t, t');
    RemoveHandles(t, f);
    RemoveNodes(t, domains, f);
    PinnedFrame(t, t');
  }

  lemma RemoveNodes(t: Tables, domains: map<Id, Id>, f: Id)
    requires NodesOk(t) && Durable(t, domains) && f in t.nodes
    ensures NodesOk(Removed(t, f)) && Durable(Removed(t, f), domains)
  {
    var t' := Removed(t, f);
    forall g | g in t'.nodes ensures NodeOk(t', g) && DurableOk(t', domains, g) {
      assert NodeOk(t, g) && DurableOk(t, domains, g);
    }
  }

  lemma RemoveHandles(t: Tables, f: Id)
    requires HandlesOk(t) && f in t.nodes
    ensures HandlesOk(Removed(t, f))
  {
    var t' := Removed(t, f);
    forall i | i in t'.handles ensures HandleOk(t', i) {
      assert HandleOk(t, i);
    }
  }
}
