/** Preparing a range write: fences and replacements are reserved before a byte moves, then each block is patched
    where its base is. */
module Prepare {
  import opened Bytes
  import opened Layout
  import opened Tables
  import opened Steps
  import opened Progress
  import opened Leases
  import opened Handles
  import opened Commits
  import opened Writes
  import Splitting
  import Patch

  // ---------------------------------------------------------------- what the handle holds already

  datatype Gathered = Gathered(fences: seq<Fence>, covered: set<nat>, hasSize: bool)

  predicate Covers(f: Fence, k: nat) { f.whole || k in f.indices }

  predicate HoldsSize(fences: seq<Fence>) {
    exists f :: f in fences && f.size
  }

  /** covered and hasSize say what the fences give, as far as the wanted blocks go. */
  ghost predicate Sums(g: Gathered, wanted: set<nat>) {
    && (forall k :: k in wanted ==> (k in g.covered <==> Covered(g.fences, k)))
    && (g.hasSize <==> HoldsSize(g.fences))
  }

  function Add(g: Gathered, f: Fence, wanted: set<nat>): Gathered {
    Gathered(g.fences + [f], g.covered + (if f.whole then wanted else f.indices), g.hasSize || f.size)
  }

  lemma AddSums(g: Gathered, f: Fence, wanted: set<nat>)
    requires Sums(g, wanted)
    ensures Sums(Add(g, f, wanted), wanted)
    ensures forall k :: Covered(Add(g, f, wanted).fences, k) <==> Covered(g.fences, k) || Covers(f, k)
    ensures HoldsSize(Add(g, f, wanted).fences) <==> HoldsSize(g.fences) || f.size
  {
    var all := Add(g, f, wanted).fences;
    assert f in all && forall x :: x in all <==> x in g.fences || x == f;
  }

  /** The fences the client sent: each must be held, by this handle. */
  method GatherFences(t: Tables, session: Id, i: Id, fences: seq<Fence>, wanted: set<nat>) returns (r: Result<Gathered>)
    ensures r.Ok? <==> AllHeld(t, session, fences) && forall f :: f in fences ==> f.holder == i
    ensures r.Ok? ==> r.value.fences == fences && Sums(r.value, wanted)
  {
    var g, k := Gathered([], {}, false), 0;
    while k < |fences|
      invariant 0 <= k <= |fences| && g.fences == fences[..k] && Sums(g, wanted)
      invariant AllHeld(t, session, fences[..k]) && forall f :: f in fences[..k] ==> f.holder == i
    {
      var fault := FenceFault(t, session, fences[k]);
      assert fences[k] in fences;
      if fault.Some? {
        return Err(fault.value);
      }
      if fences[k].holder != i {
        return Err(PermissionDenied);
      }
      assert fences[..k + 1] == fences[..k] + [fences[k]];
      AddSums(g, fences[k], wanted);
      g := Add(g, fences[k], wanted);
      k := k + 1;
    }
    assert fences[..k] == fences;
    return Ok(g);
  }

  /** A live explicit lock of this handle. */
  predicate OwnLock(t: Tables, session: Id, i: Id, j: Id) {
    && j in t.locks && LockLive(t, t.locks[j]) && t.locks[j].holder == i && t.locks[j].session == session
    && !t.locks[j].automatic
  }

  /** Every fence is held by this handle, and stands for one that was sent or for an explicit lock. */
  ghost predicate Ours(t: Tables, session: Id, i: Id, sent: seq<Fence>, fences: seq<Fence>) {
    && AllHeld(t, session, fences)
    && (forall f :: f in fences ==> f.holder == i && (f in sent || OwnLock(t, session, i, f.lock)))
    && (forall f :: f in sent ==> f in fences)
  }

  /** Explicit locks count even if the client did not send their fences. */
  method AddExplicit(t: Tables, session: Id, i: Id, sent: Gathered, wanted: set<nat>) returns (g: Gathered)
    requires Sums(sent, wanted) && AllHeld(t, session, sent.fences) && forall f :: f in sent.fences ==> f.holder == i
    ensures Sums(g, wanted) && Ours(t, session, i, sent.fences, g.fences)
    ensures forall j :: OwnLock(t, session, i, j) ==> Names(g.fences, j)
  {
    g := sent;
    var left := t.locks.Keys;
    while left != {}
      invariant left <= t.locks.Keys
      invariant Sums(g, wanted) && Ours(t, session, i, sent.fences, g.fences)
      invariant forall j :: OwnLock(t, session, i, j) && j !in left ==> Names(g.fences, j)
    {
      var j :| j in left;
      left := left - {j};
      if OwnLock(t, session, i, j) && !Names(g.fences, j) {
        AddSums(g, FenceOf(j, t.locks[j]), wanted);
        ghost var before := g.fences;
        g := Add(g, FenceOf(j, t.locks[j]), wanted);
        assert FenceOf(j, t.locks[j]) in g.fences;
        assert forall f :: f in before ==> f in g.fences;
      }
    }
  }

  // ---------------------------------------------------------------- the lock that is still missing

  function Indices(parts: seq<Part>): set<nat> {
    set p | p in parts :: p.index
  }

  /** What the handle's own locks give beside the fences that were sent. */
  ghost predicate CoveredSoFar(t: Tables, session: Id, i: Id, sent: seq<Fence>, k: nat) {
    Covered(sent, k) || exists j :: OwnLock(t, session, i, j) && (t.locks[j].whole || k in t.locks[j].indices)
  }

  ghost predicate SizeSoFar(t: Tables, session: Id, i: Id, sent: seq<Fence>) {
    HoldsSize(sent) || exists j :: OwnLock(t, session, i, j) && t.locks[j].size
  }

  ghost function Missing(t: Tables, session: Id, i: Id, sent: seq<Fence>, parts: seq<Part>): set<nat> {
    set k | k in Indices(parts) && !CoveredSoFar(t, session, i, sent, k)
  }

  /** Coverage by the gathered fences is coverage by what was sent and by the handle's own locks. */
  lemma GatheredCoverage(t: Tables, session: Id, i: Id, sent: seq<Fence>, g: Gathered, k: nat)
    requires Ours(t, session, i, sent, g.fences) && forall j :: OwnLock(t, session, i, j) ==> Names(g.fences, j)
    ensures Covered(g.fences, k) <==> CoveredSoFar(t, session, i, sent, k)
    ensures HoldsSize(g.fences) <==> SizeSoFar(t, session, i, sent)
  {
    forall f | f in g.fences ensures f.lock in t.locks && FenceOf(f.lock, t.locks[f.lock]) == f {
      assert FenceHeld(t, session, f);
    }
  }

  /** The one automatic lock a write may still need: the uncovered blocks, and the size if it grows the file. */
  ghost function Lacking(t: Tables, cfg: Config, session: Id, i: Id, sent: seq<Fence>, parts: seq<Part>, growing: bool): Lock
    requires i in t.handles
  {
    Wanted(t, cfg, i, t.handles[i].file, session, Missing(t, session, i, sent, parts), false, growing && !SizeSoFar(t, session, i, sent), true)
  }

  /** The write's locks can be had: nothing is lacking, or no live lock of another owner is in the way. */
  ghost predicate Lockable(t: Tables, cfg: Config, session: Id, i: Id, sent: seq<Fence>, parts: seq<Part>, growing: bool)
    requires i in t.handles
  {
    var l := Lacking(t, cfg, session, i, sent, parts, growing);
    (l.indices == {} && !l.size) || NoConflict(t, l)
  }

  /** Only locks, and the identifiers they take, are new. */
  ghost predicate OnlyLocks(t: Tables, u: Tables) {
    && u == t.(uids := u.uids, sequence := u.sequence, locks := u.locks) && t.uids <= u.uids <= t.uids + 1
    && forall j :: j in t.locks ==> j in u.locks && u.locks[j] == t.locks[j]
  }

  method CoverAll(tx: Transaction, session: Id, i: Id, ghost sent: seq<Fence>, g: Gathered, ghost parts: seq<Part>, wanted: set<nat>, growing: bool)
    returns (r: Result<seq<Fence>>)
    requires tx.Valid() && i in tx.t.handles && tx.t.handles[i].file < tx.t.uids && wanted == Indices(parts) && Sums(g, wanted)
    requires Ours(tx.t, session, i, sent, g.fences) && forall j :: OwnLock(tx.t, session, i, j) ==> Names(g.fences, j)
    modifies tx
    ensures tx.Kept() && OnlyLocks(old(tx.t), tx.t)
    ensures r.Ok? <==> Lockable(old(tx.t), tx.cfg, session, i, sent, parts, growing)
    ensures r.Ok? ==> AllHeld(tx.t, session, r.value) && forall f :: f in r.value ==> f.holder == i
    ensures r.Ok? ==> (forall k :: k in wanted ==> Covered(r.value, k)) && (growing ==> HoldsSize(r.value))
  {
    var missing, size := wanted - g.covered, growing && !g.hasSize;
    EvolvesReflexive(tx.t, tx.domains);
    LackingIs(tx.t, session, i, sent, g, parts, wanted);
    if missing == {} && !size {
      forall k | k in wanted ensures Covered(g.fences, k) {
        assert k !in missing;
      }
      return Ok(g.fences);
    }
    ghost var t := tx.t;
    var lock := Acquire(tx, i, tx.t.handles[i].file, session, missing, false, size, true);
    if lock.Err? {
      return Err(lock.reason);
    }
    var f := FenceOf(lock.value, tx.t.locks[lock.value]);
    StillHeld(t, tx.t, session, g.fences);
    OneMoreHeld(tx.t, session, i, g.fences, f);
    Completes(g, f, wanted);
    return Ok(g.fences + [f]);
  }

  lemma OneMoreHeld(t: Tables, session: Id, i: Id, fences: seq<Fence>, f: Fence)
    requires AllHeld(t, session, fences) && (forall x :: x in fences ==> x.holder == i) && FenceHeld(t, session, f) && f.holder == i
    ensures AllHeld(t, session, fences + [f]) && forall x :: x in fences + [f] ==> x.holder == i
  {
  }

  lemma LackingIs(t: Tables, session: Id, i: Id, sent: seq<Fence>, g: Gathered, parts: seq<Part>, wanted: set<nat>)
    requires wanted == Indices(parts) && Sums(g, wanted)
    requires Ours(t, session, i, sent, g.fences) && forall j :: OwnLock(t, session, i, j) ==> Names(g.fences, j)
    ensures wanted - g.covered == Missing(t, session, i, sent, parts)
    ensures g.hasSize == SizeSoFar(t, session, i, sent)
  {
    forall k | k in wanted ensures k in g.covered <==> CoveredSoFar(t, session, i, sent, k) {
      GatheredCoverage(t, session, i, sent, g, k);
    }
    GatheredCoverage(t, session, i, sent, g, 0);
  }

  lemma Completes(g: Gathered, f: Fence, wanted: set<nat>)
    requires Sums(g, wanted) && f.indices == wanted - g.covered
    ensures forall k :: k in wanted ==> Covered(g.fences + [f], k)
    ensures HoldsSize(g.fences + [f]) <==> g.hasSize || f.size
  {
    AddSums(g, f, wanted);
  }

  lemma StillHeld(t: Tables, u: Tables, session: Id, fences: seq<Fence>)
    requires AllHeld(t, session, fences) && OnlyLocks(t, u)
    ensures AllHeld(u, session, fences)
  {
    forall f | f in fences ensures FenceHeld(u, session, f) {
      assert FenceHeld(t, session, f);
    }
  }

  // ---------------------------------------------------------------- the operation

  /** One replacement version is reserved for each part. */
  method PlanParts(t: Tables, o: Id, file: Id, blocks: seq<BlockRef>, parts: seq<Part>) returns (planned: seq<PlannedPart>, assignments: map<Id, Assignment>)
    requires IdsOk(t)
    ensures |planned| == |parts|
    ensures forall j {:trigger planned[j]} :: 0 <= j < |parts| ==>
      planned[j] == PlannedPart(parts[j], BlockAt(blocks, parts[j].index, file), t.uids + j)
    ensures Assigns(t, o, parts, assignments)
  {
    planned, assignments := [], t.assignments;
    while |planned| < |parts|
      invariant |planned| <= |parts|
      invariant forall j {:trigger planned[j]} :: 0 <= j < |planned| ==>
        planned[j] == PlannedPart(parts[j], BlockAt(blocks, parts[j].index, file), t.uids + j)
      invariant forall b :: b in assignments <==> b in t.assignments || t.uids <= b < t.uids + |planned|
      invariant forall b :: b in assignments ==> assignments[b] == if b in t.assignments then t.assignments[b] else Assignment(o, parts[b - t.uids].index)
    {
      var part, version := parts[|planned|], t.uids + |planned|;
      assignments := assignments[version := Assignment(o, part.index)];
      planned := planned + [PlannedPart(part, BlockAt(blocks, part.index, file), version)];
    }
  }

  function LocksEntered(locks: map<Id, Lock>, fences: seq<Fence>, o: Id): map<Id, Lock> {
    map i | i in locks :: if Names(fences, i) then locks[i].(active := locks[i].active + {o}) else locks[i]
  }

  /** The operation is recorded, its locks list it and its handle is busy with it. */
  function Entered(t: Tables, o: Id, op: Operation, assignments: map<Id, Assignment>, uids: Id): Tables
    requires op.Write? && op.handle in t.handles
  {
    t.(uids := uids, ops := t.ops[o := op], locks := LocksEntered(t.locks, op.fences, o),
       handles := t.handles[op.handle := t.handles[op.handle].(busy := o)], assignments := assignments)
  }

  /** Everything BeginWrite has established when it records the operation. */
  ghost predicate Startable(t: Tables, o: Id, op: Operation, assignments: map<Id, Assignment>, uids: Id) {
    && op.Write? && ABSENT < o < t.uids && o !in t.ops && o !in t.handles
    && op.handle in t.handles && t.handles[op.handle].busy == ABSENT && t.handles[op.handle].file == op.file && t.handles[op.handle].session == op.session
    && AllHeld(t, op.session, op.fences) && (forall f :: f in op.fences ==> f.holder == op.handle)
    && t.uids <= uids && (forall b :: b in assignments <==> b in t.assignments || t.uids <= b < uids)
    && (forall b :: b in t.assignments ==> assignments[b] == t.assignments[b])
    && (op.phase == PREPARING ==>
         && WriteShape(op) && Uncontested(t, op)
         && forall j {:trigger op.parts[j]} :: 0 <= j < |op.parts| ==>
              t.uids <= op.parts[j].replacement < uids && assignments[op.parts[j].replacement] == Assignment(o, op.parts[j].part.index))
  }

  lemma EnteredEnters(t: Tables, u: Tables, o: Id, op: Operation, assignments: map<Id, Assignment>, uids: Id)
    requires IdsOk(t) && HoldersOk(t) && Startable(t, o, op, assignments, uids) && u == Entered(t, o, op, assignments, uids)
    ensures Enters(t, u, o, op)
  {
    forall i | i in t.locks ensures LockEnters(t, t.locks[i], u.locks[i], o, op, i) {
      if Names(op.fences, i) {
        var f :| f in op.fences && f.lock == i;
        assert FenceHeld(t, op.session, f);
      }
    }
    forall i | i in t.handles ensures u.handles[i] == t.handles[i] || HandleEnters(t.handles[i], u.handles[i], o, op, i) {
    }
  }

  lemma EnteredOk(t: Tables, u: Tables, o: Id, op: Operation, assignments: map<Id, Assignment>, uids: Id)
    requires IdsOk(t) && HoldersOk(t) && Startable(t, o, op, assignments, uids) && u == Entered(t, o, op, assignments, uids)
    ensures OpOk(u, o)
  {
    if op.phase == PREPARING {
      forall f | f in op.fences
        ensures f.lock in u.locks && f.lock < u.uids && o in u.locks[f.lock].active && u.locks[f.lock].file == op.file && FenceOf(f.lock, u.locks[f.lock]) == f
        ensures u.locks[f.lock].session == op.session
      {
        assert FenceHeld(t, op.session, f);
        assert HolderOk(t, t.locks[f.lock]);
        assert Names(op.fences, f.lock);
      }
      forall j | 0 <= j < |op.parts| ensures PartOk(u, o, op, op.parts[j]) {
        assert t.uids <= op.parts[j].replacement < uids;
      }
      assert Uncontested(u, op) <==> Uncontested(t, op);
    }
  }

  lemma EnteredStep(t: Tables, u: Tables, domains: map<Id, Id>, o: Id, op: Operation, assignments: map<Id, Assignment>, uids: Id)
    requires Inv(t, domains) && Startable(t, o, op, assignments, uids) && u == Entered(t, o, op, assignments, uids)
    ensures Inv(u, domains) && Evolves(t, u)
  {
    EnteredEnters(t, u, o, op, assignments, uids);
    EnteredOk(t, u, o, op, assignments, uids);
    EnterStep(t, u, domains, o, op);
  }

  // ---------------------------------------------------------------- BeginWrite

  function Slot(blocks: seq<BlockRef>, k: nat): Option<BlockRef> {
    if k < |blocks| then Some(blocks[k]) else None
  }

  /** The base and the current manifest agree on every block that the parts touch. */
  ghost predicate SameSlots(a: seq<BlockRef>, b: seq<BlockRef>, parts: seq<Part>) {
    forall j {:trigger parts[j]} :: 0 <= j < |parts| ==> Slot(a, parts[j].index) == Slot(b, parts[j].index)
  }

  method CheckSlots(a: seq<BlockRef>, b: seq<BlockRef>, parts: seq<Part>) returns (same: bool)
    ensures same <==> SameSlots(a, b, parts)
  {
    var k := 0;
    while k < |parts|
      invariant 0 <= k <= |parts| && forall j {:trigger parts[j]} :: 0 <= j < k ==> Slot(a, parts[j].index) == Slot(b, parts[j].index)
    {
      if Slot(a, parts[k].index) != Slot(b, parts[k].index) {
        return false;
      }
      k := k + 1;
    }
    return true;
  }

  /** Exactly when a write may be prepared, but for its locks. */
  ghost predicate MayPrepare(t: Tables, cfg: Config, session: Id, i: Id, base: Id, offset: nat, length: nat, parts: seq<Part>, fences: seq<Fence>) {
    && WritableFault(t, session, i) == None
    && var h := t.handles[i];
    && PolicyOf(t, h.file).state != PROMOTING
    && h.busy == ABSENT && base == h.snapshot
    && RangeFault(offset, length) == None
    && var s, now := t.snapshots[base], Current(t, h.file);
    && offset <= s.total && offset + length <= cfg.maxFileBytes
    && (offset + length > s.total ==> now.total == s.total)
    && s.blockSize > 0 && parts == Split(offset, length, s.blockSize) && |parts| <= Splitting.MAX_PARTS
    && SameSlots(s.blocks, now.blocks, parts)
    && |fences| <= MAX_FENCES && AllHeld(t, session, fences) && forall f :: f in fences ==> f.holder == i
  }

  /** The checks of BeginWrite, in order. */
  method CheckBegin(t: Tables, ghost domains: map<Id, Id>, cfg: Config, session: Id, i: Id, base: Id, offset: nat, length: nat, parts: seq<Part>, fences: seq<Fence>)
    returns (r: Result<Gathered>)
    requires Inv(t, domains)
    ensures r.Ok? <==> MayPrepare(t, cfg, session, i, base, offset, length, parts, fences)
    ensures r.Ok? ==> r.value.fences == fences && Sums(r.value, Indices(parts))
  {
    var fault := HandleFault(t, session, i);
    if fault.Some? {
      return Err(fault.value);
    }
    var h := t.handles[i];
    if PolicyOf(t, h.file).state == PROMOTING {
      return Err(LockBusy);
    }
    fault := WritableFault(t, session, i);
    if fault.Some? {
      return Err(fault.value);
    }
    if h.busy != ABSENT {
      return Err(HandleBusy);
    }
    if base != h.snapshot {
      return Err(VersionConflict);
    }
    fault := RangeFault(offset, length);
    if fault.Some? {
      return Err(fault.value);
    }
    r := CheckPieces(t, domains, cfg, session, i, offset, length, parts, fences);
  }

  /** The rest of the checks: sizes, parts, blocks, fences. */
  method CheckPieces(t: Tables, ghost domains: map<Id, Id>, cfg: Config, session: Id, i: Id, offset: nat, length: nat, parts: seq<Part>, fences: seq<Fence>)
    returns (r: Result<Gathered>)
    requires Inv(t, domains) && WritableFault(t, session, i) == None && PolicyOf(t, t.handles[i].file).state != PROMOTING
    requires t.handles[i].busy == ABSENT && RangeFault(offset, length) == None
    ensures r.Ok? <==> MayPrepare(t, cfg, session, i, t.handles[i].snapshot, offset, length, parts, fences)
    ensures r.Ok? ==> r.value.fences == fences && Sums(r.value, Indices(parts))
  {
    var h := t.handles[i];
    var s, now := t.snapshots[h.snapshot], Current(t, h.file);
    WritableHandle(t, domains, session, i);
    assert NodeOk(t, h.file);
    if offset > s.total {
      return Err(SparseWrite);
    }
    if offset + length > cfg.maxFileBytes {
      return Err(LimitExceeded);
    }
    if offset + length > s.total && now.total != s.total {
      return Err(VersionConflict);
    }
    var partition := Splitting.CheckParts(parts, offset, length, s.blockSize);
    if !partition {
      return Err(InvalidArgument);
    }
    var same := CheckSlots(s.blocks, now.blocks, parts);
    if !same {
      return Err(VersionConflict);
    }
    if |fences| > MAX_FENCES {
      return Err(InvalidArgument);
    }
    r := GatherFences(t, session, i, fences, Indices(parts));
  }

  /** What BeginWrite records; a write of nothing is finished at once. */
  function NewWrite(t: Tables, i: Id, offset: nat, delta: seq<byte>, planned: seq<PlannedPart>, fences: seq<Fence>): Operation
    requires i in t.handles && t.handles[i].snapshot in t.snapshots
  {
    var h := t.handles[i];
    var s := t.snapshots[h.snapshot];
    Write(h.file, h.session, if delta == [] then COMMITTED else PREPARING, fences, PolicyOf(t, h.file).revision, s.blockSize, s.epoch,
      i, h.revision, t.epoch, s.total, offset, delta, offset + |delta| > s.total, planned)
  }

  /** The parts, their bases in the handle's snapshot, and versions nobody has used. */
  ghost predicate Plans(t: Tables, i: Id, parts: seq<Part>, planned: seq<PlannedPart>)
    requires i in t.handles && t.handles[i].snapshot in t.snapshots
  {
    && |planned| == |parts|
    && forall j {:trigger planned[j]} :: 0 <= j < |planned| ==>
         planned[j] == PlannedPart(parts[j], BlockAt(t.snapshots[t.handles[i].snapshot].blocks, parts[j].index, t.handles[i].file), t.uids + j)
  }

  lemma NewWriteFits(t: Tables, domains: map<Id, Id>, cfg: Config, session: Id, i: Id, offset: nat, delta: seq<byte>, parts: seq<Part>,
    planned: seq<PlannedPart>, fences: seq<Fence>)
    requires Inv(t, domains) && i in t.handles && MayPrepare(t, cfg, session, i, t.handles[i].snapshot, offset, |delta|, parts, []) && delta != []
    requires Plans(t, i, parts, planned)
    requires forall f :: f in fences ==> f.holder == i
    requires forall k :: k in Indices(parts) ==> Covered(fences, k)
    requires offset + |delta| > t.snapshots[t.handles[i].snapshot].total ==> HoldsSize(fences)
    ensures WriteShape(NewWrite(t, i, offset, delta, planned, fences))
  {
    var op, h := NewWrite(t, i, offset, delta, planned, fences), t.handles[i];
    WritableHandle(t, domains, session, i);
    assert SnapshotOk(t.snapshots[h.snapshot]);
    forall j | 0 <= j < |planned|
      ensures planned[j].part == PartAt(offset, |delta|, op.blockSize, j) && planned[j].base.file == op.file && Covered(fences, planned[j].part.index)
    {
      assert parts[j] in parts && parts[j].index in Indices(parts);
    }
  }

  lemma NewWriteUncontested(t: Tables, domains: map<Id, Id>, cfg: Config, session: Id, i: Id, offset: nat, delta: seq<byte>, parts: seq<Part>,
    planned: seq<PlannedPart>, fences: seq<Fence>)
    requires Inv(t, domains) && i in t.handles && MayPrepare(t, cfg, session, i, t.handles[i].snapshot, offset, |delta|, parts, [])
    requires Plans(t, i, parts, planned)
    ensures Uncontested(t, NewWrite(t, i, offset, delta, planned, fences))
  {
    var op, h := NewWrite(t, i, offset, delta, planned, fences), t.handles[i];
    WritableHandle(t, domains, session, i);
    var s, now := t.snapshots[h.snapshot], Current(t, h.file);
    forall j | 0 <= j < |planned| ensures BlockAt(now.blocks, planned[j].part.index, op.file) == planned[j].base {
      assert Slot(s.blocks, parts[j].index) == Slot(now.blocks, parts[j].index);
    }
  }

  /** The write is recorded under fences that cover it. */
  method Start(tx: Transaction, session: Id, o: Id, i: Id, offset: nat, delta: seq<byte>, parts: seq<Part>, fences: seq<Fence>)
    returns (ghost planned: seq<PlannedPart>, ghost assignments: map<Id, Assignment>)
    requires tx.Valid() && Starting(tx.t, tx.cfg, session, o, i, offset, delta, parts, fences)
    modifies tx
    ensures tx.Kept()
    ensures Plans(old(tx.t), i, parts, planned)
    ensures tx.t == Entered(old(tx.t), o, NewWrite(old(tx.t), i, offset, delta, planned, fences), assignments, old(tx.t).uids + |parts|)
  {
    var t := tx.t;
    var h := t.handles[i];
    var plan, table := PlanParts(t, o, h.file, t.snapshots[h.snapshot].blocks, parts);
    planned, assignments := plan, table;
    var op := NewWrite(t, i, offset, delta, plan, fences);
    var u := Entered(t, o, op, table, t.uids + |parts|);
    StartStep(t, u, tx.domains, tx.cfg, session, o, i, offset, delta, parts, plan, fences, table, op);
    tx.t := u;
  }

  /** What Start is called with. */
  ghost predicate Starting(t: Tables, cfg: Config, session: Id, o: Id, i: Id, offset: nat, delta: seq<byte>, parts: seq<Part>, fences: seq<Fence>) {
    && ABSENT < o < t.uids && o !in t.ops && o !in t.handles && i in t.handles
    && MayPrepare(t, cfg, session, i, t.handles[i].snapshot, offset, |delta|, parts, [])
    && AllHeld(t, session, fences) && (forall f :: f in fences ==> f.holder == i)
    && (forall k :: k in Indices(parts) ==> Covered(fences, k))
    && (offset + |delta| > t.snapshots[t.handles[i].snapshot].total ==> HoldsSize(fences))
  }

  /** The table of assignments with one entry more for each part. */
  ghost predicate Assigns(t: Tables, o: Id, parts: seq<Part>, assignments: map<Id, Assignment>) {
    && (forall b :: b in assignments <==> b in t.assignments || t.uids <= b < t.uids + |parts|)
    && (forall b :: b in assignments ==> assignments[b] == if b in t.assignments then t.assignments[b] else Assignment(o, parts[b - t.uids].index))
  }

  lemma PlannedVersions(t: Tables, o: Id, i: Id, parts: seq<Part>, planned: seq<PlannedPart>, assignments: map<Id, Assignment>)
    requires IdsOk(t) && i in t.handles && t.handles[i].snapshot in t.snapshots && Plans(t, i, parts, planned) && Assigns(t, o, parts, assignments)
    ensures forall j {:trigger planned[j]} :: 0 <= j < |planned| ==>
      t.uids <= planned[j].replacement < t.uids + |parts| && assignments[planned[j].replacement] == Assignment(o, planned[j].part.index)
  {
    forall j | 0 <= j < |planned|
      ensures t.uids <= planned[j].replacement < t.uids + |parts| && assignments[planned[j].replacement] == Assignment(o, planned[j].part.index)
    {
      assert planned[j].replacement == t.uids + j && t.uids + j !in t.assignments;
    }
  }

  lemma StartStep(t: Tables, u: Tables, domains: map<Id, Id>, cfg: Config, session: Id, o: Id, i: Id, offset: nat, delta: seq<byte>, parts: seq<Part>,
    planned: seq<PlannedPart>, fences: seq<Fence>, assignments: map<Id, Assignment>, op: Operation)
    requires Inv(t, domains) && Starting(t, cfg, session, o, i, offset, delta, parts, fences)
    requires Plans(t, i, parts, planned) && Assigns(t, o, parts, assignments) && op == NewWrite(t, i, offset, delta, planned, fences)
    requires u == Entered(t, o, op, assignments, t.uids + |parts|)
    ensures Inv(u, domains) && Evolves(t, u)
  {
    StartStartable(t, domains, cfg, session, o, i, offset, delta, parts, planned, fences, assignments, op);
    EnteredStep(t, u, domains, o, op, assignments, t.uids + |parts|);
  }

  lemma StartStartable(t: Tables, domains: map<Id, Id>, cfg: Config, session: Id, o: Id, i: Id, offset: nat, delta: seq<byte>, parts: seq<Part>,
    planned: seq<PlannedPart>, fences: seq<Fence>, assignments: map<Id, Assignment>, op: Operation)
    requires Inv(t, domains) && Starting(t, cfg, session, o, i, offset, delta, parts, fences)
    requires Plans(t, i, parts, planned) && Assigns(t, o, parts, assignments) && op == NewWrite(t, i, offset, delta, planned, fences)
    ensures Startable(t, o, op, assignments, t.uids + |parts|)
  {
    if delta != [] {
      NewWriteFits(t, domains, cfg, session, i, offset, delta, parts, planned, fences);
      NewWriteUncontested(t, domains, cfg, session, i, offset, delta, parts, planned, fences);
    }
    PlannedVersions(t, o, i, parts, planned, assignments);
  }

  /** Exactly when BeginWrite succeeds. */
  ghost predicate MayBegin(t: Tables, cfg: Config, session: Id, i: Id, base: Id, offset: nat, length: nat, parts: seq<Part>, fences: seq<Fence>) {
    && MayPrepare(t, cfg, session, i, base, offset, length, parts, fences)
    && Lockable(t, cfg, session, i, fences, parts, offset + length > t.snapshots[base].total)
  }

  /** A write is begun: it holds every block it touches, and the size if it grows the file, before a byte moves.
      placed says whether every part found a node for its replacement. */
  method BeginWrite(tx: Transaction, session: Id, i: Id, base: Id, offset: nat, delta: seq<byte>, parts: seq<Part>, fences: seq<Fence>, placed: bool)
    returns (r: Result<Id>)
    requires tx.Valid()
    modifies tx
    ensures tx.Kept()
    ensures r.Ok? <==> MayBegin(old(tx.t), tx.cfg, session, i, base, offset, |delta|, parts, fences) && placed
    ensures r.Err? ==> tx.t == old(tx.t)
    ensures r.Ok? ==> Begun(old(tx.t), tx.t, i, offset, delta, parts, r.value)
    ensures r.Ok? && delta != [] ==> GoesOn(tx.t, session, r.value)
  {
    var before := tx.t;
    EvolvesReflexive(before, tx.domains);
    var gathered := CheckBegin(before, tx.domains, tx.cfg, session, i, base, offset, |delta|, parts, fences);
    if gathered.Err? {
      return Err(gathered.reason);
    }
    r := Prepare(tx, session, i, offset, delta, parts, fences, gathered.value);
    if r.Ok? && !placed {
      r := Err(DataUnavailable);
    }
    if r.Err? {
      tx.t := before;
    } else if delta != [] {
      BegunGoesOn(before, tx.t, tx.cfg, session, i, base, offset, delta, parts, fences, r.value);
    }
  }

  /** The write passes every check that its reports and its commit make of the operation itself. */
  ghost predicate GoesOn(t: Tables, session: Id, o: Id) {
    && WriteFault(t, session, o) == None && PolicyFault(t, t.ops[o]) == None && AllHeld(t, session, t.ops[o].fences)
  }

  lemma BegunGoesOn(t: Tables, u: Tables, cfg: Config, session: Id, i: Id, base: Id, offset: nat, delta: seq<byte>, parts: seq<Part>, fences: seq<Fence>, o: Id)
    requires MayPrepare(t, cfg, session, i, base, offset, |delta|, parts, fences) && Begun(t, u, i, offset, delta, parts, o) && delta != []
    ensures GoesOn(u, session, o)
  {
  }

  lemma StillPrepared(t: Tables, u: Tables, cfg: Config, session: Id, i: Id, base: Id, offset: nat, length: nat, parts: seq<Part>, fences: seq<Fence>)
    requires MayPrepare(t, cfg, session, i, base, offset, length, parts, fences)
    requires u == t.(uids := u.uids, sequence := u.sequence, locks := u.locks)
    ensures MayPrepare(u, cfg, session, i, u.handles[i].snapshot, offset, length, parts, [])
  {
  }

  /** Gather what the handle holds and lock what it lacks; o is the identifier of the operation to come. */
  method TakeLocks(tx: Transaction, session: Id, i: Id, sent: Gathered, parts: seq<Part>, growing: bool)
    returns (o: Id, r: Result<seq<Fence>>)
    requires tx.Valid() && i in tx.t.handles && tx.t.handles[i].file < tx.t.uids && Sums(sent, Indices(parts))
    requires AllHeld(tx.t, session, sent.fences) && forall f :: f in sent.fences ==> f.holder == i
    modifies tx
    ensures tx.Kept()
    ensures tx.t == old(tx.t).(uids := tx.t.uids, sequence := tx.t.sequence, locks := tx.t.locks)
    ensures ABSENT < o < tx.t.uids && o !in tx.t.ops && o !in tx.t.handles
    ensures r.Ok? <==> Lockable(old(tx.t), tx.cfg, session, i, sent.fences, parts, growing)
    ensures r.Ok? ==> AllHeld(tx.t, session, r.value) && forall f :: f in r.value ==> f.holder == i
    ensures r.Ok? ==> (forall k :: k in Indices(parts) ==> Covered(r.value, k)) && (growing ==> HoldsSize(r.value))
  {
    ghost var t0 := tx.t;
    var g := AddExplicit(tx.t, session, i, sent, Indices(parts));
    o := tx.NewId();
    ghost var t1 := tx.t;
    SameLocksHeld(t0, t1, session, i, sent.fences, g.fences, parts);
    SameLack(t0, t1, tx.cfg, session, i, sent.fences, parts, growing);
    r := CoverAll(tx, session, i, sent.fences, g, parts, Indices(parts), growing);
    EvolvesTransitive(t0, t1, tx.t);
  }

  /** Lock what is lacking and record the write. */
  method Prepare(tx: Transaction, session: Id, i: Id, offset: nat, delta: seq<byte>, parts: seq<Part>, fences: seq<Fence>, sent: Gathered)
    returns (r: Result<Id>)
    requires tx.Valid() && i in tx.t.handles && sent.fences == fences && Sums(sent, Indices(parts))
    requires MayPrepare(tx.t, tx.cfg, session, i, tx.t.handles[i].snapshot, offset, |delta|, parts, fences)
    modifies tx
    ensures tx.Kept()
    ensures r.Ok? <==> Lockable(old(tx.t), tx.cfg, session, i, fences, parts, offset + |delta| > old(tx.t).snapshots[old(tx.t).handles[i].snapshot].total)
    ensures r.Ok? ==> Begun(old(tx.t), tx.t, i, offset, delta, parts, r.value)
  {
    ghost var t0 := tx.t;
    var growing := offset + |delta| > tx.t.snapshots[tx.t.handles[i].snapshot].total;
    var o, locked := TakeLocks(tx, session, i, sent, parts, growing);
    if locked.Err? {
      return Err(locked.reason);
    }
    ghost var t1 := tx.t;
    StillPrepared(t0, t1, tx.cfg, session, i, t0.handles[i].snapshot, offset, |delta|, parts, fences);
    Record(tx, session, o, i, offset, delta, parts, locked.value);
    EvolvesTransitive(t0, t1, tx.t);
    BegunSince(t0, t1, tx.t, i, offset, delta, parts, o);
    return Ok(o);
  }

  lemma SameLocksHeld(t: Tables, u: Tables, session: Id, i: Id, sent: seq<Fence>, fences: seq<Fence>, parts: seq<Part>)
    requires u == t.(uids := u.uids) && Ours(t, session, i, sent, fences) && i in t.handles
    ensures Ours(u, session, i, sent, fences)
    ensures forall j :: OwnLock(u, session, i, j) <==> OwnLock(t, session, i, j)
    ensures Missing(u, session, i, sent, parts) == Missing(t, session, i, sent, parts)
    ensures SizeSoFar(u, session, i, sent) <==> SizeSoFar(t, session, i, sent)
  {
    forall f | f in fences ensures FenceHeld(u, session, f) {
      assert FenceHeld(t, session, f);
    }
    assert forall j :: OwnLock(u, session, i, j) <==> OwnLock(t, session, i, j);
    forall k ensures CoveredSoFar(u, session, i, sent, k) <==> CoveredSoFar(t, session, i, sent, k) {
    }
  }

  lemma SameLack(t: Tables, u: Tables, cfg: Config, session: Id, i: Id, sent: seq<Fence>, parts: seq<Part>, growing: bool)
    requires u == t.(uids := u.uids) && i in t.handles
    requires Missing(u, session, i, sent, parts) == Missing(t, session, i, sent, parts)
    requires SizeSoFar(u, session, i, sent) <==> SizeSoFar(t, session, i, sent)
    ensures Lockable(u, cfg, session, i, sent, parts, growing) <==> Lockable(t, cfg, session, i, sent, parts, growing)
  {
    var l := Lacking(t, cfg, session, i, sent, parts, growing);
    assert forall j :: j in t.locks ==> (Stands(u, t.locks[j], l) <==> Stands(t, t.locks[j], l));
  }

  /** Record the write; a write of nothing is finished and lets go of its locks at once. */
  method Record(tx: Transaction, session: Id, o: Id, i: Id, offset: nat, delta: seq<byte>, parts: seq<Part>, fences: seq<Fence>)
    requires tx.Valid() && Starting(tx.t, tx.cfg, session, o, i, offset, delta, parts, fences)
    modifies tx
    ensures tx.Kept() && Begun(old(tx.t), tx.t, i, offset, delta, parts, o)
  {
    ghost var t0 := tx.t;
    ghost var planned, assignments := Start(tx, session, o, i, offset, delta, parts, fences);
    ghost var t1 := tx.t;
    ghost var op := NewWrite(t0, i, offset, delta, planned, fences);
    if delta == [] {
      ReleaseOperation(tx, o);
      EvolvesTransitive(t0, t1, tx.t);
      BegunNothing(t0, t1, tx.t, session, o, i, offset, delta, parts, planned, assignments, op);
    } else {
      BegunWrite(t0, t1, session, o, i, offset, delta, parts, planned, assignments, op);
    }
  }

  lemma BegunNothing(t: Tables, u: Tables, v: Tables, session: Id, o: Id, i: Id, offset: nat, delta: seq<byte>, parts: seq<Part>,
    planned: seq<PlannedPart>, assignments: map<Id, Assignment>, op: Operation)
    requires IdsOk(t) && o !in t.ops && i in t.handles && t.handles[i].snapshot in t.snapshots && t.handles[i].busy == ABSENT && delta == []
    requires Plans(t, i, parts, planned) && op == NewWrite(t, i, offset, delta, planned, op.fences)
    requires u == Entered(t, o, op, assignments, t.uids + |parts|) && v == Released(u, o)
    ensures Begun(t, v, i, offset, delta, parts, o)
  {
    PlannedFresh(t, i, parts, planned);
  }

  lemma BegunWrite(t: Tables, u: Tables, session: Id, o: Id, i: Id, offset: nat, delta: seq<byte>, parts: seq<Part>,
    planned: seq<PlannedPart>, assignments: map<Id, Assignment>, op: Operation)
    requires IdsOk(t) && o !in t.ops && i in t.handles && t.handles[i].snapshot in t.snapshots && t.handles[i].session == session
    requires HandleLive(t, t.handles[i]) && AllHeld(t, session, op.fences) && delta != []
    requires Plans(t, i, parts, planned) && op == NewWrite(t, i, offset, delta, planned, op.fences)
    requires u == Entered(t, o, op, assignments, t.uids + |parts|)
    ensures Begun(t, u, i, offset, delta, parts, o)
  {
    EnteredFenced(t, u, session, o, i, op, assignments, t.uids + |parts|);
    PlannedFresh(t, i, parts, planned);
  }

  lemma PlannedFresh(t: Tables, i: Id, parts: seq<Part>, planned: seq<PlannedPart>)
    requires IdsOk(t) && i in t.handles && t.handles[i].snapshot in t.snapshots && Plans(t, i, parts, planned)
    ensures forall j {:trigger planned[j]} :: 0 <= j < |planned| ==> planned[j].replacement !in t.assignments
  {
    forall j | 0 <= j < |planned| ensures planned[j].replacement !in t.assignments {
      assert planned[j].replacement == t.uids + j;
    }
  }

  lemma EnteredFenced(t: Tables, u: Tables, session: Id, o: Id, i: Id, op: Operation, assignments: map<Id, Assignment>, uids: Id)
    requires op.Write? && op.handle == i && i in t.handles && HandleLive(t, t.handles[i]) && op.session == session
    requires AllHeld(t, session, op.fences) && u == Entered(t, o, op, assignments, uids)
    ensures WriteFenced(u, op)
  {
    forall f | f in op.fences ensures FenceHeld(u, session, f) {
      assert FenceHeld(t, session, f);
    }
  }

  lemma BegunSince(t: Tables, v: Tables, u: Tables, i: Id, offset: nat, delta: seq<byte>, parts: seq<Part>, o: Id)
    requires v == t.(uids := v.uids, sequence := v.sequence, locks := v.locks) && Begun(v, u, i, offset, delta, parts, o)
    ensures Begun(t, u, i, offset, delta, parts, o)
  {
  }

  /** What a successful BeginWrite leaves behind. */
  ghost predicate Begun(t: Tables, u: Tables, i: Id, offset: nat, delta: seq<byte>, parts: seq<Part>, o: Id) {
    && i in t.handles && t.handles[i].snapshot in t.snapshots && o !in t.ops && o in u.ops && u.ops[o].Write?
    && u == t.(uids := u.uids, sequence := u.sequence, locks := u.locks, ops := u.ops, assignments := u.assignments, handles := u.handles)
    && u.ops == t.ops[o := u.ops[o]]
    && u.handles == t.handles[i := t.handles[i].(busy := if delta == [] then ABSENT else o)]
    && (var h, s := t.handles[i], t.snapshots[t.handles[i].snapshot];
        u.ops[o] == Write(h.file, h.session, if delta == [] then COMMITTED else PREPARING, u.ops[o].fences, PolicyOf(t, h.file).revision,
          s.blockSize, s.epoch, i, h.revision, t.epoch, s.total, offset, delta, offset + |delta| > s.total, u.ops[o].parts))
    && |u.ops[o].parts| == |parts|
    && (forall j {:trigger u.ops[o].parts[j]} :: 0 <= j < |parts| ==>
         && u.ops[o].parts[j].part == parts[j]
         && u.ops[o].parts[j].base == BlockAt(t.snapshots[t.handles[i].snapshot].blocks, parts[j].index, t.handles[i].file)
         && u.ops[o].parts[j].replacement !in t.assignments)
    && (delta != [] ==> WriteFenced(u, u.ops[o]))
  }
}
