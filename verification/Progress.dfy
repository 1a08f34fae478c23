/** The elementary steps of operations, of stored blocks and of collection, each shown to keep the invariant. An
    operation enters on locks that are held, moves on, and ends; blocks are recorded, and go when nothing reaches them. */
module Progress {
  import opened Bytes
  import opened Layout
  import opened Tables
  import opened Steps

  // ---------------------------------------------------------------- ending and releasing operations

  /** Some operations end; nothing else changes. */
  ghost predicate PhasesEnd(t: Tables, t': Tables) {
    && t' == t.(ops := t'.ops) && t'.ops.Keys == t.ops.Keys
    && forall o :: o in t.ops ==> PhaseEnds(t.ops[o], t'.ops[o])
  }

  predicate PhaseEnds(op: Operation, op': Operation) {
    op' == op || (op'.phase != PREPARING && op' == op.(phase := op'.phase))
  }

  lemma EndOps(t: Tables, t': Tables)
    requires OpsOk(t) && PhasesEnd(t, t')
    ensures OpsOk(t')
  {
    forall o | o in t'.ops ensures OpOk(t', o) {
      assert PhaseEnds(t.ops[o], t'.ops[o]);
      if t'.ops[o] == t.ops[o] {
        assert OpOk(t, o);
        assert t.ops[o].Write? ==> (Uncontested(t', t.ops[o]) <==> Uncontested(t, t.ops[o]));
        OpFrame(t, t', o);
      }
    }
  }

  lemma EndHandles(t: Tables, t': Tables)
    requires HandlesOk(t) && PhasesEnd(t, t')
    ensures HandlesOk(t')
  {
    forall i | i in t'.handles ensures HandleOk(t', i) {
      assert HandleOk(t, i);
    }
  }

  lemma EndStep(t: Tables, t': Tables, domains: map<Id, Id>)
    requires Inv(t, domains) && PhasesEnd(t, t')
    ensures Inv(t', domains) && Evolves(t, t')
  {
    assert forall o :: o in t.ops ==> PhaseEnds(t.ops[o], t'.ops[o]);
    EndOps(t, t');
    EndHandles(t, t');
    LocksFrame(t, t');
    NodesFrame(t, t', domains);
    PinnedFrame(t, t');
  }

  /** Ended operations leave their locks, some of which go, and their handles. */
  ghost predicate Releases(t: Tables, t': Tables) {
    && t' == t.(locks := t'.locks, handles := t'.handles) && t'.handles.Keys == t.handles.Keys
    && (forall i :: i in t'.locks ==> i in t.locks && LockReleases(t, t.locks[i], t'.locks[i]))
    && (forall i :: i in t.handles ==> t'.handles[i] == t.handles[i] || HandleFreed(t, t', t.handles[i], t'.handles[i]))
  }

  ghost predicate LockReleases(t: Tables, l: Lock, l': Lock) {
    && l' == l.(active := l'.active) && l'.active <= l.active
    && forall o :: o in l.active && o !in l'.active && o in t.ops ==> t.ops[o].phase != PREPARING
  }

  ghost predicate HandleFreed(t: Tables, t': Tables, h: Handle, h': Handle) {
    && h' == h.(busy := ABSENT)
    && (h.busy in t.ops ==> t.ops[h.busy].phase != PREPARING)
    && forall i :: i in t'.locks ==> h.busy !in t'.locks[i].active
  }

  lemma ReleaseLocks(t: Tables, t': Tables)
    requires IdsOk(t) && HoldersOk(t) && LocksExclude(t) && ActivesOk(t) && Releases(t, t')
    ensures HoldersOk(t') && LocksExclude(t') && ActivesOk(t')
  {
    forall i | i in t'.locks ensures ActiveOk(t', i) && HolderOk(t', t'.locks[i]) {
      assert ActiveOk(t, i) && HolderOk(t, t.locks[i]);
    }
    forall i, j | i in t'.locks && j in t'.locks ensures Excludes(t', t'.locks[i], t'.locks[j]) {
      assert Excludes(t, t.locks[i], t.locks[j]);
    }
  }

  lemma ReleaseUndisturbed(t: Tables, t': Tables, o: Id)
    requires Releases(t, t') && o in t.ops && t.ops[o].phase == PREPARING && OpOk(t, o)
    ensures Undisturbed(t, t', o, t.ops[o])
  {
    var op := t.ops[o];
    assert forall f :: f in op.fences && f.lock in t'.locks ==> f.lock in t.locks && LockReleases(t, t.locks[f.lock], t'.locks[f.lock]);
    if op.Write? {
      assert Uncontested(t', op) <==> Uncontested(t, op);
    }
  }

  lemma ReleaseOps(t: Tables, t': Tables)
    requires OpsOk(t) && Releases(t, t')
    ensures OpsOk(t')
  {
    forall o | o in t.ops && t.ops[o].phase == PREPARING ensures Undisturbed(t, t', o, t.ops[o]) {
      assert OpOk(t, o);
      ReleaseUndisturbed(t, t', o);
    }
    OpsFrame(t, t');
  }

  lemma ReleaseHandles(t: Tables, t': Tables)
    requires HandlesOk(t) && Releases(t, t')
    ensures HandlesOk(t')
  {
    forall i | i in t'.handles ensures HandleOk(t', i) {
      assert HandleOk(t, i);
    }
  }

  lemma ReleaseStep(t: Tables, t': Tables, domains: map<Id, Id>)
    requires Inv(t, domains) && Releases(t, t')
    ensures Inv(t', domains) && Evolves(t, t')
  {
    ReleaseLocks(t, t');
    ReleaseOps(t, t');
    ReleaseHandles(t, t');
    NodesFrame(t, t', domains);
    PinnedFrame(t, t');
  }

  // ---------------------------------------------------------------- new operations

  /** Block versions are assigned once. */
  ghost predicate AssignsFresh(t: Tables, t': Tables) {
    && t.uids <= t'.uids
    && (forall b :: b in t.assignments ==> b in t'.assignments && t'.assignments[b] == t.assignments[b])
    && (forall b :: b in t'.assignments && b !in t.assignments ==> t.uids <= b < t'.uids)
  }

  predicate Names(fences: seq<Fence>, lock: Id) {
    exists f :: f in fences && f.lock == lock
  }

  /** An operation without a handle of its own, or with none of it busy yet, enters the tables. */
  ghost predicate Enters(t: Tables, t': Tables, o: Id, op: Operation) {
    && o !in t.ops && o !in t.handles && ABSENT < o < t'.uids
    && AssignsFresh(t, t')
    && (forall b :: b in t.policies ==> b in t'.policies && t'.policies[b] == t.policies[b])
    && (forall b :: b in t'.policies ==> ABSENT < b < t'.uids)
    && t' == t.(uids := t'.uids, ops := t.ops[o := op], locks := t'.locks, handles := t'.handles,
                assignments := t'.assignments, policies := t'.policies)
    && t'.handles.Keys == t.handles.Keys
    && (forall i :: i in t.handles ==> t'.handles[i] == t.handles[i] || HandleEnters(t.handles[i], t'.handles[i], o, op, i))
    && t'.locks.Keys == t.locks.Keys
    && forall i :: i in t.locks ==> LockEnters(t, t.locks[i], t'.locks[i], o, op, i)
  }

  predicate HandleEnters(h: Handle, h': Handle, o: Id, op: Operation, i: Id) {
    op.Write? && i == op.handle && h.busy == ABSENT && h' == h.(busy := o)
  }

  ghost predicate LockEnters(t: Tables, l: Lock, l': Lock, o: Id, op: Operation, i: Id) {
    if Names(op.fences, i) then
      && l' == l.(active := l.active + {o}, deadline := l'.deadline)
      && LockLive(t, l)
      && l.holder == (if op.Write? then op.handle else o)
    else l' == l
  }

  lemma EnterLocks(t: Tables, t': Tables, o: Id, op: Operation)
    requires IdsOk(t) && HoldersOk(t) && LocksExclude(t) && ActivesOk(t) && Enters(t, t', o, op)
    requires op.Write? ==> op.handle in t.handles && t.handles[op.handle].busy == ABSENT && t'.handles[op.handle].busy == o
    ensures HoldersOk(t') && LocksExclude(t') && ActivesOk(t')
  {
    EnterExcludes(t, t', o, op);
    forall i | i in t'.locks ensures ActiveOk(t', i) && HolderOk(t', t'.locks[i]) {
      assert ActiveOk(t, i) && HolderOk(t, t.locks[i]) && LockEnters(t, t.locks[i], t'.locks[i], o, op, i);
    }
  }

  lemma EnterExcludes(t: Tables, t': Tables, o: Id, op: Operation)
    requires LocksExclude(t) && Enters(t, t', o, op)
    ensures LocksExclude(t')
  {
    forall i, j | i in t'.locks && j in t'.locks ensures Excludes(t', t'.locks[i], t'.locks[j]) {
      assert Excludes(t, t.locks[i], t.locks[j]);
      assert LockEnters(t, t.locks[i], t'.locks[i], o, op, i) && LockEnters(t, t.locks[j], t'.locks[j], o, op, j);
    }
  }

  lemma EnterUndisturbed(t: Tables, t': Tables, o: Id, op: Operation, q: Id)
    requires IdsOk(t) && Enters(t, t', o, op) && q in t.ops && t.ops[q].phase == PREPARING && OpOk(t, q)
    requires op.Write? ==> op.handle in t.handles && t.handles[op.handle].busy == ABSENT
    ensures Undisturbed(t, t', q, t.ops[q])
  {
    var other := t.ops[q];
    EnterSameLocks(t, t', o, op, q, other.fences);
    if other.Write? {
      EnterFenced(t, t', o, op, other);
      assert Uncontested(t', other) <==> Uncontested(t, other);
    }
  }

  lemma EnterSameLocks(t: Tables, t': Tables, o: Id, op: Operation, q: Id, fences: seq<Fence>)
    requires Enters(t, t', o, op)
    ensures SameLocks(t, t', q, fences)
  {
    forall f | f in fences && f.lock in t'.locks
      ensures LockEnters(t, t.locks[f.lock], t'.locks[f.lock], o, op, f.lock)
    {
    }
  }

  lemma EnterFenced(t: Tables, t': Tables, o: Id, op: Operation, other: Operation)
    requires Enters(t, t', o, op) && other.Write?
    ensures WriteFenced(t', other) ==> WriteFenced(t, other)
  {
    if WriteFenced(t', other) {
      forall f | f in other.fences ensures FenceHeld(t, other.session, f) {
        assert FenceHeld(t', other.session, f);
        assert LockEnters(t, t.locks[f.lock], t'.locks[f.lock], o, op, f.lock);
      }
    }
  }

  lemma EnterOps(t: Tables, t': Tables, o: Id, op: Operation)
    requires IdsOk(t) && OpsOk(t) && Enters(t, t', o, op) && OpOk(t', o)
    requires op.Write? ==> op.handle in t.handles && t.handles[op.handle].busy == ABSENT
    ensures OpsOk(t')
  {
    forall q | q in t'.ops ensures OpOk(t', q) {
      if q != o {
        assert OpOk(t, q);
        if t.ops[q].phase == PREPARING {
          EnterUndisturbed(t, t', o, op, q);
        }
        OpFrame(t, t', q);
      }
    }
  }

  lemma EnterRest(t: Tables, t': Tables, o: Id, op: Operation)
    requires IdsOk(t) && BlocksOk(t) && SnapshotsOk(t) && Enters(t, t', o, op)
    ensures IdsOk(t') && BlocksOk(t') && SnapshotsOk(t')
  {
  }

  lemma EnterEvolves(t: Tables, t': Tables, o: Id, op: Operation)
    requires IdsOk(t) && BlocksOk(t) && Enters(t, t', o, op)
    ensures Evolves(t, t')
  {
  }

  lemma EnterNodes(t: Tables, t': Tables, domains: map<Id, Id>, o: Id, op: Operation)
    requires NodesOk(t) && Durable(t, domains) && HandlesOk(t) && Enters(t, t', o, op)
    ensures NodesOk(t') && Durable(t', domains) && HandlesOk(t')
  {
    forall i | i in t'.handles ensures HandleOk(t', i) {
      assert HandleOk(t, i);
    }
    forall f | f in t'.nodes ensures NodeOk(t', f) && DurableOk(t', domains, f) {
      assert NodeOk(t, f) && DurableOk(t, domains, f);
    }
  }

  lemma EnterStep(t: Tables, t': Tables, domains: map<Id, Id>, o: Id, op: Operation)
    requires Inv(t, domains) && Enters(t, t', o, op) && OpOk(t', o)
    requires op.Write? ==> op.handle in t.handles && t.handles[op.handle].busy == ABSENT && t'.handles[op.handle].busy == o
    ensures Inv(t', domains) && Evolves(t, t')
  {
    EnterLocks(t, t', o, op);
    EnterOps(t, t', o, op);
    EnterRest(t, t', o, op);
    EnterEvolves(t, t', o, op);
    EnterNodes(t, t', domains, o, op);
    PinnedFrame(t, t');
  }

  /** An upload gets blocks, pages or its seal. */
  ghost predicate Progresses(t: Tables, t': Tables, o: Id, op: Operation) {
    && o in t.ops && t.ops[o].Upload? && op.Upload? && op.fences == t.ops[o].fences && op.file == t.ops[o].file && op.base == t.ops[o].base
    && AssignsFresh(t, t')
    && t' == t.(uids := t'.uids, ops := t.ops[o := op], assignments := t'.assignments)
  }

  lemma ProgressStep(t: Tables, t': Tables, domains: map<Id, Id>, o: Id, op: Operation)
    requires Inv(t, domains) && Progresses(t, t', o, op) && OpOk(t', o)
    ensures Inv(t', domains) && Evolves(t, t')
  {
    LocksFrame(t, t');
    ProgressOps(t, t', o, op);
    ProgressHandles(t, t', o, op);
    NodesFrame(t, t', domains);
    PinnedFrame(t, t');
  }

  lemma ProgressOps(t: Tables, t': Tables, o: Id, op: Operation)
    requires OpsOk(t) && Progresses(t, t', o, op) && OpOk(t', o)
    ensures OpsOk(t')
  {
    forall q | q in t'.ops ensures OpOk(t', q) {
      if q != o {
        assert OpOk(t, q);
        assert t.ops[q].Write? ==> (Uncontested(t', t.ops[q]) <==> Uncontested(t, t.ops[q]));
        OpFrame(t, t', q);
      }
    }
  }

  lemma ProgressHandles(t: Tables, t': Tables, o: Id, op: Operation)
    requires HandlesOk(t) && Progresses(t, t', o, op)
    ensures HandlesOk(t')
  {
    forall i | i in t'.handles ensures HandleOk(t', i) {
      assert HandleOk(t, i);
    }
  }

  // ---------------------------------------------------------------- blocks

  /** Block b is recorded, and node n is known to hold a copy of it. */
  function Stored(t: Tables, b: BlockRef, n: Id): Tables {
    t.(blocks := t.blocks[b.version := b],
       locations := t.locations[b.version := LocationsOf(t, b.version) + {n}],
       receipts := t.receipts[b.version := ReceiptsOf(t, b.version) + {n}])
  }

  /** b is what a prepared operation that waits for this version wants. */
  /** Block b is recorded, node n is known to hold it and has a receipt for it; nothing else has changed. */
  ghost predicate Holds(t: Tables, u: Tables, b: BlockRef, n: Id) {
    && u.blocks == t.blocks[b.version := b]
    && (forall x {:trigger LocationsOf(u, x)} :: LocationsOf(u, x) == LocationsOf(t, x) + if x == b.version then {n} else {})
    && (forall x {:trigger ReceiptsOf(u, x)} :: ReceiptsOf(u, x) == ReceiptsOf(t, x) + if x == b.version then {n} else {})
    && u == t.(blocks := u.blocks, locations := u.locations, receipts := u.receipts)
  }

  lemma StoredHolds(t: Tables, b: BlockRef, n: Id)
    ensures Holds(t, Stored(t, b, n), b, n)
  {
  }

  ghost predicate Expects(op: Operation, b: BlockRef) {
    match op
    case Write(_, _, _, _, _, _, _, _, _, _, _, _, delta, _, parts) =>
      forall j {:trigger parts[j]} :: 0 <= j < |parts| && parts[j].replacement == b.version ==> Replaces(b, parts[j].base, parts[j].part, delta)
    case Upload(_, _, _, _, _, _, _, _, _, allocations, _, _) =>
      forall i {:trigger allocations[i]} :: i in allocations && allocations[i].version == b.version ==> allocations[i] == b && |b.plain| == b.size
  }

  ghost predicate Expected(t: Tables, b: BlockRef) {
    forall o {:trigger Expects(t.ops[o], b)} :: o in t.ops && t.ops[o].phase == PREPARING ==> Expects(t.ops[o], b)
  }

  ghost predicate Storable(t: Tables, b: BlockRef) {
    && ABSENT < b.version < t.uids && b.version !in t.retired
    && if b.version in t.blocks then t.blocks[b.version] == b else Expected(t, b)
  }

  lemma StoreOps(t: Tables, b: BlockRef, n: Id)
    requires OpsOk(t) && Storable(t, b)
    ensures OpsOk(Stored(t, b, n))
  {
    var t' := Stored(t, b, n);
    forall o | o in t'.ops ensures OpOk(t', o) {
      assert OpOk(t, o);
      if t.ops[o].phase == PREPARING {
        StoreOp(t, b, n, o);
      }
    }
  }

  lemma StoreOp(t: Tables, b: BlockRef, n: Id, o: Id)
    requires Storable(t, b) && o in t.ops && t.ops[o].phase == PREPARING && OpOk(t, o)
    ensures OpOk(Stored(t, b, n), o)
  {
    var op, t' := t.ops[o], Stored(t, b, n);
    assert b.version !in t.blocks ==> Expects(op, b);
    if op.Write? {
      forall j | 0 <= j < |op.parts| ensures PartOk(t', o, op, op.parts[j]) {
        assert PartOk(t, o, op, op.parts[j]);
      }
      assert Uncontested(t', op) <==> Uncontested(t, op);
    } else {
      forall i | i in op.allocations ensures AllocationOk(t', o, op, i) {
        assert AllocationOk(t, o, op, i);
      }
    }
  }

  lemma StoreRest(t: Tables, domains: map<Id, Id>, b: BlockRef, n: Id)
    requires Inv(t, domains) && Storable(t, b)
    ensures var t' := Stored(t, b, n); IdsOk(t') && BlocksOk(t') && SnapshotsOk(t') && HandlesOk(t') && Evolves(t, t')
  {
    var t' := Stored(t, b, n);
    forall i | i in t'.handles ensures HandleOk(t', i) {
      assert HandleOk(t, i);
    }
  }

  lemma StoreNodes(t: Tables, domains: map<Id, Id>, b: BlockRef, n: Id)
    requires NodesOk(t) && Durable(t, domains) && Storable(t, b)
    ensures var t' := Stored(t, b, n); NodesOk(t') && Durable(t', domains)
  {
    var t' := Stored(t, b, n);
    forall f | f in t'.nodes ensures NodeOk(t', f) && DurableOk(t', domains, f) {
      assert NodeOk(t, f) && DurableOk(t, domains, f);
      DomainsGrow(domains, ReceiptsOf(t, b.version), ReceiptsOf(t', b.version));
    }
  }

  lemma StorePinned(t: Tables, b: BlockRef, n: Id)
    requires PinnedRecorded(t) && Storable(t, b)
    ensures PinnedRecorded(Stored(t, b, n))
  {
    var t' := Stored(t, b, n);
    forall s | s in t'.snapshots && Pinned(t', s) ensures Recorded(t', s) {
      assert Pinned(t, s);
      assert Recorded(t, s);
    }
  }

  lemma StoreStep(t: Tables, t': Tables, domains: map<Id, Id>, b: BlockRef, n: Id)
    requires Inv(t, domains) && Storable(t, b) && t' == Stored(t, b, n)
    ensures Inv(t', domains) && Evolves(t, t')
  {
    StoreOps(t, b, n);
    StoreRest(t, domains, b, n);
    StoreNodes(t, domains, b, n);
    StorePinned(t, b, n);
    LocksFrame(t, t');
  }

  /** A policy may be raised to a new revision, or change its barrier only. */
  lemma PolicyStep(t: Tables, t': Tables, domains: map<Id, Id>, f: Id, p: Policy)
    requires Inv(t, domains) && f in t.policies && t' == t.(policies := t.policies[f := p])
    requires p.first == t.policies[f].first
    ensures Inv(t', domains) && Evolves(t, t')
  {
    PolicyOps(t, t', f, p);
    LocksFrame(t, t');
    PolicyNodes(t, t', domains, f, p);
    PinnedFrame(t, t');
  }

  lemma PolicyOps(t: Tables, t': Tables, f: Id, p: Policy)
    requires OpsOk(t) && f in t.policies && t' == t.(policies := t.policies[f := p])
    ensures OpsOk(t')
  {
    forall o | o in t.ops && t.ops[o].phase == PREPARING ensures Undisturbed(t, t', o, t.ops[o]) {
      assert t.ops[o].Write? ==> (Uncontested(t', t.ops[o]) <==> Uncontested(t, t.ops[o]));
    }
    OpsFrame(t, t');
  }

  lemma PolicyNodes(t: Tables, t': Tables, domains: map<Id, Id>, f: Id, p: Policy)
    requires NodesOk(t) && Durable(t, domains) && HandlesOk(t) && f in t.policies && t' == t.(policies := t.policies[f := p])
    requires p.first == t.policies[f].first
    ensures NodesOk(t') && Durable(t', domains) && HandlesOk(t')
  {
    forall g | g in t'.nodes ensures NodeOk(t', g) && DurableOk(t', domains, g) {
      assert NodeOk(t, g) && DurableOk(t, domains, g);
    }
    forall i | i in t'.handles ensures HandleOk(t', i) {
      assert HandleOk(t, i);
    }
  }

  // ---------------------------------------------------------------- collection

  /** Snapshots that nothing pins go. */
  ghost predicate Drops(t: Tables, t': Tables) {
    && t' == t.(snapshots := t'.snapshots)
    && (forall s :: s in t'.snapshots ==> s in t.snapshots && t'.snapshots[s] == t.snapshots[s])
    && (forall s :: s in t.snapshots && Pinned(t, s) ==> s in t'.snapshots)
  }

  lemma DropAlive(t: Tables, t': Tables, f: Id)
    requires Drops(t, t') && Alive(t, f)
    ensures Alive(t', f) && Current(t', f) == Current(t, f)
  {
    assert Pinned(t, t.nodes[f].snapshot);
  }

  lemma DropOps(t: Tables, t': Tables)
    requires OpsOk(t) && Drops(t, t')
    ensures OpsOk(t')
  {
    forall o | o in t.ops && t.ops[o].phase == PREPARING ensures Undisturbed(t, t', o, t.ops[o]) {
      var op := t.ops[o];
      if Alive(t, op.file) {
        DropAlive(t, t', op.file);
      }
      assert op.Write? ==> (Uncontested(t, op) ==> Uncontested(t', op));
    }
    OpsFrame(t, t');
  }

  lemma DropNodes(t: Tables, t': Tables, domains: map<Id, Id>)
    requires NodesOk(t) && Durable(t, domains) && PinnedRecorded(t) && Drops(t, t')
    ensures NodesOk(t') && Durable(t', domains) && PinnedRecorded(t')
  {
    forall f | f in t'.nodes ensures NodeOk(t', f) && DurableOk(t', domains, f) {
      assert NodeOk(t, f) && DurableOk(t, domains, f);
      if Alive(t, f) {
        DropAlive(t, t', f);
      }
    }
    forall s | s in t'.snapshots && Pinned(t', s) ensures Recorded(t', s) {
      assert Pinned(t, s);
      assert Recorded(t, s);
    }
  }

  lemma DropHandles(t: Tables, t': Tables)
    requires HandlesOk(t) && Drops(t, t')
    ensures HandlesOk(t')
  {
    forall i | i in t'.handles ensures HandleOk(t', i) {
      assert HandleOk(t, i);
      assert HandleLive(t, t.handles[i]) ==> Pinned(t, t.handles[i].snapshot);
    }
  }

  lemma DropStep(t: Tables, t': Tables, domains: map<Id, Id>)
    requires Inv(t, domains) && Drops(t, t')
    ensures Inv(t', domains) && Evolves(t, t')
  {
    DropOps(t, t');
    LocksFrame(t, t');
    DropNodes(t, t', domains);
    DropHandles(t, t');
  }

  function Retired(t: Tables, gone: set<Id>): Tables {
    t.(blocks := t.blocks - gone, locations := t.locations - gone, retired := t.retired + gone)
  }

  function Versions(blocks: seq<BlockRef>): set<Id> {
    set b | b in blocks :: b.version
  }

  /** The block versions an operation has been given. */
  function Reserved(op: Operation): set<Id> {
    match op
    case Write(_, _, _, _, _, _, _, _, _, _, _, _, _, _, parts) => set p | p in parts :: p.replacement
    case Upload(_, _, _, _, _, _, _, _, _, allocations, _, _) => set i | i in allocations :: allocations[i].version
  }

  /** No live file, live handle or prepared operation can still reach b. */
  ghost predicate Unreachable(t: Tables, b: Id) {
    && (forall s :: s in t.snapshots && Pinned(t, s) ==> b !in Versions(t.snapshots[s].blocks))
    && (forall o :: o in t.ops && t.ops[o].phase == PREPARING ==> b !in Reserved(t.ops[o]))
  }

  ghost predicate Garbage(t: Tables, gone: set<Id>) {
    gone <= t.blocks.Keys && forall b :: b in gone ==> Unreachable(t, b)
  }

  lemma RetireOp(t: Tables, gone: set<Id>, o: Id)
    requires Garbage(t, gone) && o in t.ops && t.ops[o].phase == PREPARING && OpOk(t, o)
    ensures OpOk(Retired(t, gone), o)
  {
    var op, t' := t.ops[o], Retired(t, gone);
    if op.Write? {
      forall j | 0 <= j < |op.parts| ensures PartOk(t', o, op, op.parts[j]) {
        assert PartOk(t, o, op, op.parts[j]) && op.parts[j].replacement in Reserved(op);
      }
      assert Uncontested(t', op) <==> Uncontested(t, op);
    } else {
      forall i | i in op.allocations ensures AllocationOk(t', o, op, i) {
        assert AllocationOk(t, o, op, i) && op.allocations[i].version in Reserved(op);
      }
    }
  }

  lemma RetireNodes(t: Tables, domains: map<Id, Id>, gone: set<Id>)
    requires NodesOk(t) && Durable(t, domains) && HandlesOk(t) && PinnedRecorded(t) && Garbage(t, gone)
    ensures var t' := Retired(t, gone); NodesOk(t') && Durable(t', domains) && HandlesOk(t') && PinnedRecorded(t')
  {
    var t' := Retired(t, gone);
    forall f | f in t'.nodes ensures NodeOk(t', f) && DurableOk(t', domains, f) {
      assert NodeOk(t, f) && DurableOk(t, domains, f);
    }
    forall i | i in t'.handles ensures HandleOk(t', i) {
      assert HandleOk(t, i);
    }
    forall s | s in t'.snapshots && Pinned(t', s) ensures Recorded(t', s) {
      assert Pinned(t, s);
      assert Recorded(t, s);
      assert forall b :: b in t.snapshots[s].blocks ==> b.version in Versions(t.snapshots[s].blocks);
    }
  }

  lemma RetireStep(t: Tables, t': Tables, domains: map<Id, Id>, gone: set<Id>)
    requires Inv(t, domains) && Garbage(t, gone) && t' == Retired(t, gone)
    ensures Inv(t', domains) && Evolves(t, t')
  {
    forall o | o in t'.ops ensures OpOk(t', o) {
      assert OpOk(t, o);
      if t.ops[o].phase == PREPARING {
        RetireOp(t, gone, o);
      }
    }
    LocksFrame(t, t');
    RetireNodes(t, domains, gone);
  }
}
