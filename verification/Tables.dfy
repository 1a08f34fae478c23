/** The metadata tables that access commands read and write, and what every reachable state of them keeps. */
module Tables {
  import opened Bytes
  import opened Layout

  // ---------------------------------------------------------------- records

  datatype Mode = R | RPlus | W | WPlus | X | XPlus

  datatype Phase = PREPARING | COMMITTED | ABORTED | EXPIRED

  datatype Reason =
    | InvalidArgument | PermissionDenied | NotFound | AlreadyExists | UnsupportedMode | StaleHandle | HandleBusy
    | VersionConflict | SparseWrite | LimitExceeded | LockConflict | LockExpired | LockBusy
    | OperationExpired | DataUnavailable | ChecksumMismatch | InsufficientReplicas

  type Result<T> = Outcome<T, Reason>

  datatype Snapshot = Snapshot(file: Id, epoch: nat, version: nat, total: nat, blockSize: nat, blocks: seq<BlockRef>)

  datatype Node = Node(snapshot: Id, alive: bool, revision: nat, blockSize: nat)

  /** busy is the operation that occupies the handle, or ABSENT. */
  datatype Handle = Handle(file: Id, snapshot: Id, session: Id, mode: Mode, revision: nat, closed: bool, busy: Id,
                           epoch: nat, deadline: nat, maximum: nat)

  /** holder is the handle that owns the lock, or the upload that does. */
  datatype Lock = Lock(holder: Id, file: Id, session: Id, generation: nat, indices: set<nat>, whole: bool, size: bool,
                       automatic: bool, active: set<Id>, epoch: nat, deadline: nat)

  /** What a client shows to prove that it owns a lock; its expiry hint is not part of the identity. */
  datatype Fence = Fence(lock: Id, holder: Id, epoch: nat, generation: nat, indices: set<nat>, whole: bool, size: bool)

  datatype PlannedPart = PlannedPart(part: Part, base: BlockRef, replacement: Id)

  datatype Operation =
    | Write(file: Id, session: Id, phase: Phase, fences: seq<Fence>, policy: nat, blockSize: nat, contentEpoch: nat,
            handle: Id, handleRevision: nat, controlEpoch: nat, baseTotal: nat, offset: nat, delta: seq<byte>,
            growing: bool, parts: seq<PlannedPart>)
    | Upload(file: Id, session: Id, phase: Phase, fences: seq<Fence>, policy: nat, blockSize: nat, contentEpoch: nat,
             base: Id, total: nat, allocations: map<nat, BlockRef>, pages: map<nat, seq<BlockRef>>, sealed: bool)

  /** The operation in another phase. */
  function InPhase(op: Operation, phase: Phase): (r: Operation)
    ensures r.phase == phase && r.Write? == op.Write? && r.fences == op.fences
    ensures r.(phase := op.phase) == op
  {
    op.(phase := phase)
  }

  /** Which operation, and which of its blocks, a block version was made for. */
  datatype Assignment = Assignment(operation: Id, index: nat)

  datatype Barrier = ACTIVE | PROMOTING | PROMOTION_BLOCKED

  type Revision = x: nat | x >= 1 witness 1

  /** first is the w of the file's first policy. */
  datatype PolicyRecord = Terms(r: nat, w: nat, revision: Revision, state: Barrier, first: nat)

  /** A later policy never asks for less than the first one. */
  type Policy = p: PolicyRecord | 1 <= p.first <= p.w <= 2 && (p.revision == 1 ==> p.w == p.first) witness Terms(1, 1, 1, ACTIVE, 1)

  /** uids is the next unused identifier: uid() never repeats one. */
  datatype Tables = Tables(
    clock: nat, epoch: nat, uids: Id, sequence: nat,
    nodes: map<Id, Node>, snapshots: map<Id, Snapshot>, handles: map<Id, Handle>, locks: map<Id, Lock>,
    ops: map<Id, Operation>, assignments: map<Id, Assignment>, blocks: map<Id, BlockRef>, retired: set<Id>,
    locations: map<Id, set<Id>>, receipts: map<Id, set<Id>>, policies: map<Id, Policy>)

  // ---------------------------------------------------------------- liveness and ownership

  predicate Reads(m: Mode) { m in {R, RPlus, WPlus, XPlus} }

  predicate Writes(m: Mode) { m != R }

  predicate HandleLive(t: Tables, h: Handle) {
    !h.closed && h.epoch == t.epoch && h.deadline > t.clock
  }

  predicate LockLive(t: Tables, l: Lock) {
    l.epoch == t.epoch && l.deadline > t.clock
  }

  predicate SameOwner(a: Lock, b: Lock) {
    a.session == b.session && a.holder == b.holder
  }

  predicate Clash(a: Lock, b: Lock) {
    a.whole || b.whole || (a.size && b.size) || a.indices * b.indices != {}
  }

  function FenceOf(id: Id, l: Lock): Fence {
    Fence(id, l.holder, l.epoch, l.generation, l.indices, l.whole, l.size)
  }

  /** The fence still is its lock, and the lock still is held. */
  predicate FenceHeld(t: Tables, session: Id, f: Fence) {
    && f.lock in t.locks
    && FenceOf(f.lock, t.locks[f.lock]) == f
    && t.locks[f.lock].session == session
    && LockLive(t, t.locks[f.lock])
  }

  predicate AllHeld(t: Tables, session: Id, fences: seq<Fence>) {
    forall f :: f in fences ==> FenceHeld(t, session, f)
  }

  /** Everything a prepared write relies on is live. */
  predicate WriteFenced(t: Tables, op: Operation)
    requires op.Write?
  {
    op.handle in t.handles && HandleLive(t, t.handles[op.handle]) && AllHeld(t, op.session, op.fences)
  }

  predicate Alive(t: Tables, file: Id) {
    file in t.nodes && t.nodes[file].alive && t.nodes[file].snapshot in t.snapshots
  }

  function Current(t: Tables, file: Id): Snapshot
    requires Alive(t, file)
  {
    t.snapshots[t.nodes[file].snapshot]
  }

  function PolicyOf(t: Tables, file: Id): Policy {
    if file in t.policies then t.policies[file] else Terms(1, 1, 1, ACTIVE, 1)
  }

  function ReceiptsOf(t: Tables, block: Id): set<Id> {
    if block in t.receipts then t.receipts[block] else {}
  }

  function LocationsOf(t: Tables, block: Id): set<Id> {
    if block in t.locations then t.locations[block] else {}
  }

  /** The failure domains of the administratively known nodes among ns. */
  function Domains(domains: map<Id, Id>, ns: set<Id>): set<Id> {
    set n | n in ns && n in domains :: domains[n]
  }

  lemma DomainsGrow(domains: map<Id, Id>, a: set<Id>, b: set<Id>)
    requires a <= b
    ensures |Domains(domains, a)| <= |Domains(domains, b)|
  {
    SubsetSize(Domains(domains, a), Domains(domains, b));
  }

  lemma {:induction false} SubsetSize(a: set<Id>, b: set<Id>)
    requires a <= b
    ensures |a| <= |b|
  {
    if a != {} {
      var x :| x in a;
      SubsetSize(a - {x}, b - {x});
    }
  }

  function TouchedSize(p: PlannedPart): nat {
    Max(p.base.size, p.part.blockOffset + p.part.length)
  }

  // ---------------------------------------------------------------- the invariant

  /** Identifiers come from one counter; handles and operations never share one. */
  ghost predicate IdsOk(t: Tables) {
    && t.uids > ABSENT
    && (forall i :: i in t.nodes || i in t.snapshots || i in t.handles || i in t.locks || i in t.ops ==> ABSENT < i < t.uids)
    && (forall b :: b in t.assignments || b in t.blocks || b in t.retired || b in t.receipts || b in t.locations || b in t.policies ==> ABSENT < b < t.uids)
    && t.handles.Keys !! t.ops.Keys
  }

  /** A lock that a handle holds is on the handle's file. */
  predicate HolderOk(t: Tables, l: Lock) {
    l.holder < t.uids && l.file < t.uids && (l.holder in t.handles ==> t.handles[l.holder].file == l.file)
  }

  predicate Excludes(t: Tables, a: Lock, b: Lock) {
    LockLive(t, a) && LockLive(t, b) && a.file == b.file && !SameOwner(a, b) ==> !Clash(a, b)
  }

  /** Two live locks of different owners on one file never clash. */
  ghost predicate LocksExclude(t: Tables) {
    forall i, j {:trigger Excludes(t, t.locks[i], t.locks[j])} :: i in t.locks && j in t.locks ==> Excludes(t, t.locks[i], t.locks[j])
  }

  /** An operation that a lock lists as active lists the lock, and still occupies its handle. */
  ghost predicate ActiveOk(t: Tables, i: Id)
    requires i in t.locks
  {
    forall o :: o in t.locks[i].active ==>
      && o in t.ops
      && (exists f :: f in t.ops[o].fences && f.lock == i)
      && (t.ops[o].Write? ==>
           t.locks[i].holder == t.ops[o].handle && t.ops[o].handle in t.handles && t.handles[t.ops[o].handle].busy == o)
      && (t.ops[o].Upload? ==> t.locks[i].holder == o)
  }

  ghost predicate SnapshotOk(s: Snapshot) {
    && WellFormed(s.blocks, s.blockSize, s.total)
    && forall b :: b in s.blocks ==> b.file == s.file
  }

  ghost predicate NodeOk(t: Tables, f: Id)
    requires f in t.nodes
  {
    && f in t.policies
    && t.nodes[f].blockSize > 0
    && (t.nodes[f].alive ==>
         && Alive(t, f)
         && Current(t, f).file == f
         && Current(t, f).blockSize == t.nodes[f].blockSize)
  }

  /** A live handle's snapshot is kept, and is never ahead of the file it was taken of. */
  ghost predicate HandleOk(t: Tables, i: Id)
    requires i in t.handles
  {
    var h := t.handles[i];
    HandleLive(t, h) ==>
      && h.file in t.nodes
      && h.snapshot in t.snapshots
      && t.snapshots[h.snapshot].file == h.file
      && t.snapshots[h.snapshot].blockSize == t.nodes[h.file].blockSize
      && (Alive(t, h.file) ==> NotAhead(t.snapshots[h.snapshot], Current(t, h.file)))
  }

  ghost predicate NotAhead(s: Snapshot, now: Snapshot) {
    s.epoch <= now.epoch && (s.epoch == now.epoch ==> s.total <= now.total)
  }

  /** The shape of a prepared write: the parts of its range, on blocks of its file, covered by its fences. */
  ghost predicate WriteShape(op: Operation)
    requires op.Write?
  {
    && op.blockSize > 0
    && |op.delta| > 0
    && op.offset <= op.baseTotal
    && op.growing == (op.offset + |op.delta| > op.baseTotal)
    && |op.parts| == PartCount(op.offset, |op.delta|, op.blockSize)
    && (forall j {:trigger op.parts[j]} :: 0 <= j < |op.parts| ==>
         && op.parts[j].part == PartAt(op.offset, |op.delta|, op.blockSize, j)
         && op.parts[j].base.file == op.file)
    && (forall j {:trigger Covered(op.fences, op.parts[j].part.index)} :: 0 <= j < |op.parts| ==> Covered(op.fences, op.parts[j].part.index))
    && (op.growing ==> exists f :: f in op.fences && f.size)
    && (forall f :: f in op.fences ==> f.holder == op.handle)
  }

  ghost predicate Covered(fences: seq<Fence>, index: nat) {
    exists f :: f in fences && (f.whole || index in f.indices)
  }

  /** What CommitWrite checks about the file: nobody has changed what this write was prepared on. */
  ghost predicate Uncontested(t: Tables, op: Operation)
    requires op.Write?
  {
    && Alive(t, op.file)
    && var s := Current(t, op.file);
       && s.epoch == op.contentEpoch
       && s.blockSize == op.blockSize
       && op.baseTotal <= s.total
       && (op.growing ==> s.total == op.baseTotal)
       && forall j {:trigger op.parts[j]} :: 0 <= j < |op.parts| ==> BlockAt(s.blocks, op.parts[j].part.index, op.file) == op.parts[j].base
  }

  ghost predicate WriteOk(t: Tables, o: Id)
    requires o in t.ops && t.ops[o].Write?
  {
    var op := t.ops[o];
    op.phase == PREPARING ==>
      && WriteShape(op)
      && op.handle in t.handles
      && t.handles[op.handle].busy == o
      && t.handles[op.handle].file == op.file
      && t.handles[op.handle].session == op.session
      && (forall f :: f in op.fences ==> f.lock < t.uids)
      && (forall f :: f in op.fences && f.lock in t.locks ==>
           && o in t.locks[f.lock].active
           && t.locks[f.lock].file == op.file
           && t.locks[f.lock].session == op.session
           && FenceOf(f.lock, t.locks[f.lock]) == f)
      && op.file in t.nodes && t.nodes[op.file].alive
      && (forall j {:trigger op.parts[j]} :: 0 <= j < |op.parts| ==> PartOk(t, o, op, op.parts[j]))
      && (WriteFenced(t, op) ==> Uncontested(t, op))
  }

  /** The block version made for a part: reserved for it, not retired, and once stored the patched base. */
  ghost predicate PartOk(t: Tables, o: Id, op: Operation, p: PlannedPart)
    requires op.Write?
  {
    && p.replacement in t.assignments
    && t.assignments[p.replacement] == Assignment(o, p.part.index)
    && p.replacement !in t.retired
    && (p.replacement in t.blocks ==>
         t.blocks[p.replacement].version == p.replacement && Replaces(t.blocks[p.replacement], p.base, p.part, op.delta))
  }

  /** An allocated block has the size the manifest wants at its index. */
  ghost predicate AllocationOk(t: Tables, o: Id, op: Operation, i: nat)
    requires op.Upload? && op.blockSize > 0 && i in op.allocations
  {
    var b := op.allocations[i];
    && b.file == op.file
    && i < CeilDiv(op.total, op.blockSize)
    && Sized(b, i, op.blockSize, op.total)
    && b.version in t.assignments
    && t.assignments[b.version] == Assignment(o, i)
    && b.version !in t.retired
    && (b.version in t.blocks ==> t.blocks[b.version] == b && |b.plain| == b.size)
  }

  const PAGE := 64

  ghost predicate PageOk(op: Operation, p: nat)
    requires op.Upload? && op.blockSize > 0 && p in op.pages
  {
    && 0 < |op.pages[p]| == Min(PAGE, CeilDiv(op.total, op.blockSize) - PAGE * p)
    && PageLists(op, p, op.pages[p])
  }

  /** The page lists the allocated blocks from PAGE * p on. */
  ghost predicate PageLists(op: Operation, p: nat, page: seq<BlockRef>)
    requires op.Upload?
  {
    forall k {:trigger page[k]} :: 0 <= k < |page| ==> AllocatedAs(op, PAGE * p + k, page[k])
  }

  predicate AllocatedAs(op: Operation, i: nat, b: BlockRef)
    requires op.Upload?
  {
    i in op.allocations && op.allocations[i] == b
  }

  ghost predicate UploadOk(t: Tables, o: Id)
    requires o in t.ops && t.ops[o].Upload?
  {
    var op := t.ops[o];
    op.phase == PREPARING ==>
      && op.blockSize > 0
      && op.base < t.uids
      && op.file in t.policies
      && (op.base == ABSENT ==> op.file == o + 1 && op.file !in t.nodes)
      && (op.base != ABSENT && Alive(t, op.file) && t.nodes[op.file].snapshot == op.base ==>
           op.contentEpoch == Current(t, op.file).epoch + 1 && op.blockSize == t.nodes[op.file].blockSize)
      && (forall i :: i in op.allocations ==> AllocationOk(t, o, op, i))
      && (forall p :: p in op.pages ==> PageOk(op, p))
      && |op.fences| == 1 && op.fences[0].whole && op.fences[0].holder == o && op.fences[0].lock < t.uids
      && (op.fences[0].lock in t.locks ==> t.locks[op.fences[0].lock].file == op.file && o in t.locks[op.fences[0].lock].active)
  }

  ghost predicate OpOk(t: Tables, o: Id)
    requires o in t.ops
  {
    if t.ops[o].Write? then WriteOk(t, o) else UploadOk(t, o)
  }

  /** Every block that something can still read is recorded. */
  ghost predicate Recorded(t: Tables, s: Id)
    requires s in t.snapshots
  {
    forall b :: b in t.snapshots[s].blocks ==> b.version in t.blocks && t.blocks[b.version] == b
  }

  /** A snapshot that a live file or a live handle pins. */
  ghost predicate Pinned(t: Tables, s: Id) {
    || (exists f :: f in t.nodes && t.nodes[f].alive && t.nodes[f].snapshot == s)
    || (exists i :: i in t.handles && HandleLive(t, t.handles[i]) && t.handles[i].snapshot == s)
  }

  ghost predicate BlocksOk(t: Tables) {
    && t.retired !! t.blocks.Keys
    && t.locations.Keys <= t.blocks.Keys
    && (forall b :: b in t.blocks ==> t.blocks[b].version == b)
    && (forall b :: b in t.locations ==> b in t.receipts && t.locations[b] <= t.receipts[b])
  }

  /** Blocks of a file keep receipts in as many failure domains as its first policy asks. */
  ghost predicate DurableOk(t: Tables, domains: map<Id, Id>, f: Id)
    requires f in t.nodes
  {
    Alive(t, f) ==> forall b :: b in Current(t, f).blocks ==> |Domains(domains, ReceiptsOf(t, b.version))| >= PolicyOf(t, f).first
  }

  ghost predicate HoldersOk(t: Tables) {
    forall i {:trigger HolderOk(t, t.locks[i])} :: i in t.locks ==> HolderOk(t, t.locks[i])
  }

  ghost predicate ActivesOk(t: Tables) {
    forall i {:trigger ActiveOk(t, i)} :: i in t.locks ==> ActiveOk(t, i)
  }

  ghost predicate SnapshotsOk(t: Tables) {
    forall s {:trigger SnapshotOk(t.snapshots[s])} :: s in t.snapshots ==> SnapshotOk(t.snapshots[s])
  }

  ghost predicate NodesOk(t: Tables) {
    forall f {:trigger NodeOk(t, f)} :: f in t.nodes ==> NodeOk(t, f)
  }

  ghost predicate HandlesOk(t: Tables) {
    forall i {:trigger HandleOk(t, i)} :: i in t.handles ==> HandleOk(t, i)
  }

  ghost predicate OpsOk(t: Tables) {
    forall o {:trigger OpOk(t, o)} :: o in t.ops ==> OpOk(t, o)
  }

  ghost predicate PinnedRecorded(t: Tables) {
    forall s {:trigger Recorded(t, s)} :: s in t.snapshots && Pinned(t, s) ==> Recorded(t, s)
  }

  ghost predicate Durable(t: Tables, domains: map<Id, Id>) {
    forall f {:trigger DurableOk(t, domains, f)} :: f in t.nodes ==> DurableOk(t, domains, f)
  }

  ghost predicate Inv(t: Tables, domains: map<Id, Id>) {
    && IdsOk(t)
    && HoldersOk(t)
    && LocksExclude(t)
    && BlocksOk(t)
    && ActivesOk(t)
    && SnapshotsOk(t)
    && NodesOk(t)
    && HandlesOk(t)
    && OpsOk(t)
    && PinnedRecorded(t)
    && Durable(t, domains)
  }

  /** What no command undoes: retired stays retired, receipts, block records and first policies are never rewritten, a snapshot
      keeps its content for as long as it is kept, and no identifier comes back. */
  ghost predicate Evolves(a: Tables, b: Tables) {
    && a.clock <= b.clock && a.epoch <= b.epoch && a.uids <= b.uids && a.sequence <= b.sequence
    && a.retired <= b.retired
    && (forall x :: x in a.receipts ==> x in b.receipts && a.receipts[x] <= b.receipts[x])
    && (forall f :: f in a.policies ==> f in b.policies && b.policies[f].first == a.policies[f].first)
    && (forall x :: x in b.blocks ==> (x in a.blocks && b.blocks[x] == a.blocks[x]) || (x !in a.blocks && x !in a.retired))
    && (forall x :: x in a.blocks ==> x in b.blocks || x in b.retired)
    && (forall s :: s in b.snapshots ==> (s in a.snapshots && b.snapshots[s] == a.snapshots[s]) || s >= a.uids)
  }

  lemma EvolvesReflexive(a: Tables, domains: map<Id, Id>)
    requires Inv(a, domains)
    ensures Evolves(a, a)
  {
  }

  /** Over a whole run: retired blocks never come back into the block table, receipts never shrink, and a
      snapshot that is still there is byte for byte what it was. */
  lemma EvolvesTransitive(a: Tables, b: Tables, c: Tables)
    requires Evolves(a, b) && Evolves(b, c)
    requires (forall x :: x in a.snapshots ==> x < a.uids) && (forall x :: x in b.snapshots ==> x < b.uids)
    ensures Evolves(a, c)
  {
  }
}
