/** Handles and explicit locks: opening, truncating, making, renewing and closing, and locks that a user asks for. A
    handle stands for one snapshot, whatever is published later; a truncation shuts out every older handle. */
module Handles {
  import opened Bytes
  import opened Layout
  import opened Tables
  import opened Steps
  import opened Progress
  import opened Leases

  /** Why a handle cannot be used. */
  function HandleFault(t: Tables, session: Id, i: Id): (r: Option<Reason>)
    ensures r == None <==>
      (i in t.handles && t.handles[i].session == session && HandleLive(t, t.handles[i]) && t.handles[i].snapshot in t.snapshots)
  {
    if !(i in t.handles && t.handles[i].session == session && HandleLive(t, t.handles[i])) then Some(StaleHandle)
    else if t.handles[i].snapshot !in t.snapshots then Some(StaleHandle)
    else None
  }

  /** writable(): why a handle cannot write. */
  function WritableFault(t: Tables, session: Id, i: Id): (r: Option<Reason>)
    ensures r == None <==>
      (HandleFault(t, session, i) == None && Writes(t.handles[i].mode) && Alive(t, t.handles[i].file)
       && Current(t, t.handles[i].file).epoch == t.snapshots[t.handles[i].snapshot].epoch)
  {
    if HandleFault(t, session, i).Some? then
      HandleFault(t, session, i)
    else
      var h := t.handles[i];
      if !Writes(h.mode) then Some(PermissionDenied)
      else if !(Alive(t, h.file) && Current(t, h.file).epoch == t.snapshots[h.snapshot].epoch) then Some(VersionConflict)
      else None
  }

  /** A live handle never loses its snapshot, and the file has not shrunk or changed its block size since. */
  lemma WritableHandle(t: Tables, domains: map<Id, Id>, session: Id, i: Id)
    requires Inv(t, domains) && i in t.handles
    ensures HandleLive(t, t.handles[i]) ==> t.handles[i].snapshot in t.snapshots
    ensures WritableFault(t, session, i) == None ==>
      var base, now := t.snapshots[t.handles[i].snapshot], Current(t, t.handles[i].file);
      base.total <= now.total && base.blockSize == now.blockSize && base.file == now.file == t.handles[i].file && base.epoch == now.epoch
  {
    assert HandleOk(t, i);
    if WritableFault(t, session, i) == None {
      assert NodeOk(t, t.handles[i].file);
    }
  }

  predicate Creates(m: Mode) { m in {W, WPlus, X, XPlus} }

  predicate Unlocked(t: Tables, f: Id) {
    forall j :: j in t.locks && LockLive(t, t.locks[j]) ==> t.locks[j].file != f
  }

  function NewHandle(t: Tables, cfg: Config, f: Id, session: Id, mode: Mode): Handle
    requires f in t.nodes
  {
    Handle(f, t.nodes[f].snapshot, session, mode, 1, false, ABSENT, t.epoch, t.clock + Min(cfg.handleSeconds, DAY), t.clock + DAY)
  }

  /** found is the file the path leads to, if any; reserved says that an upload has taken the name. */
  predicate MayOpen(t: Tables, found: Id, mode: Mode, reserved: bool) {
    && (Alive(t, found) && Writes(mode) ==> PolicyOf(t, found).state != PROMOTING)
    && if Creates(mode) then !reserved && (Alive(t, found) ==> mode in {W, WPlus} && Unlocked(t, found)) else Alive(t, found)
  }

  function Empty(f: Id, epoch: nat, version: nat, blockSize: nat): Snapshot {
    Snapshot(f, epoch, version, 0, blockSize, [])
  }

  lemma EmptyOk(f: Id, epoch: nat, version: nat, blockSize: nat)
    requires blockSize > 0
    ensures SnapshotOk(Empty(f, epoch, version, blockSize))
  {
    CeilDivBounds(0, blockSize);
  }

  /** A prepared write that is fenced holds a live lock of its own handle on its file. */
  lemma FencedWriteLocks(t: Tables, o: Id) returns (i: Id)
    requires o in t.ops && t.ops[o].Write? && t.ops[o].phase == PREPARING && OpOk(t, o) && WriteFenced(t, t.ops[o])
    ensures i in t.locks && LockLive(t, t.locks[i]) && t.locks[i].file == t.ops[o].file && t.locks[i].holder == t.ops[o].handle
  {
    var op := t.ops[o];
    PartRange(op.offset, |op.delta|, op.blockSize);
    assert Covered(op.fences, op.parts[0].part.index);
    var f :| f in op.fences;
    assert FenceHeld(t, op.session, f);
    i := f.lock;
  }

  lemma UnlockedRespects(t: Tables, domains: map<Id, Id>, f: Id, s: Snapshot)
    requires Inv(t, domains) && f in t.nodes && Unlocked(t, f)
    ensures Respects(t, f, s)
  {
    forall o | o in t.ops && t.ops[o].Write? && t.ops[o].phase == PREPARING && t.ops[o].file == f && WriteFenced(t, t.ops[o])
      ensures false
    {
      assert OpOk(t, o);
      var i := FencedWriteLocks(t, o);
    }
  }

  /** Two identifiers and a lock generation are used up, nothing else. */
  function Spent(t: Tables): Tables {
    t.(uids := t.uids + 2, sequence := t.sequence + 1)
  }

  /** The current snapshot is replaced by an empty one of the next content epoch. */
  function Emptied(t: Tables, f: Id): Tables
    requires Alive(t, f)
  {
    Published(t, f, Empty(f, Current(t, f).epoch + 1, Current(t, f).version + 1, t.nodes[f].blockSize))
  }

  /** A fresh owner takes the whole file, and gives it back at once: the truncation is published in this same transaction. */
  method TakeWhole(tx: Transaction, session: Id, f: Id) returns (r: Result<Id>)
    requires tx.Valid() && f < tx.t.uids
    modifies tx
    ensures tx.Kept()
    ensures r.Ok? <==> Unlocked(old(tx.t), f)
    ensures r.Err? ==> r.reason == LockConflict
    ensures r.Ok? ==> r.value in tx.t.locks && tx.t.(locks := tx.t.locks - {r.value}) == Spent(old(tx.t))
  {
    ghost var t := tx.t;
    var owner := tx.NewId();
    ghost var t1 := tx.t;
    ghost var wanted := Wanted(tx.t, tx.cfg, owner, f, session, {}, true, true, true);
    FreshOwner(t, t1, wanted);
    r := Acquire(tx, owner, f, session, {}, true, true, true);
    EvolvesTransitive(t, t1, tx.t);
    if r.Ok? {
      LockComesAndGoes(t, t1, tx.t, wanted);
    }
  }

  method Truncate(tx: Transaction, session: Id, f: Id) returns (r: Result<()>)
    requires tx.Valid() && Alive(tx.t, f)
    modifies tx
    ensures tx.Kept()
    ensures r.Ok? <==> Unlocked(old(tx.t), f)
    ensures r.Err? ==> r.reason == LockConflict
    ensures r.Ok? ==> tx.t == Emptied(Spent(old(tx.t)), f)
  {
    ghost var t := tx.t;
    var lock := TakeWhole(tx, session, f);
    if lock.Err? {
      return Err(lock.reason);
    }
    TruncateStep(t, tx.domains, f);
    var unlocked := tx.t.(locks := tx.t.locks - {lock.value});
    tx.t := Emptied(unlocked, f);
    return Ok(());
  }

  /** An owner that is nobody yet gets the whole file exactly if no live lock is on it. */
  lemma FreshOwner(t: Tables, u: Tables, l: Lock)
    requires HoldersOk(t) && u == t.(uids := u.uids) && l.holder >= t.uids && l.whole
    ensures NoConflict(u, l) <==> Unlocked(t, l.file)
    ensures l.file >= t.uids ==> Unlocked(t, l.file)
  {
    assert forall j :: j in t.locks ==> HolderOk(t, t.locks[j]) && (Stands(u, t.locks[j], l) <==> LockLive(t, t.locks[j]) && t.locks[j].file == l.file);
  }

  lemma LockComesAndGoes(t: Tables, t1: Tables, u: Tables, l: Lock)
    requires t.uids + 1 !in t.locks && t1 == t.(uids := t.uids + 1) && u == Acquired(t1, l)
    ensures u.(locks := u.locks - {t1.uids}) == Spent(t)
  {
    assert u.locks - {t.uids + 1} == t.locks;
  }

  lemma TruncateStep(t: Tables, domains: map<Id, Id>, f: Id)
    requires Inv(t, domains) && Alive(t, f) && Unlocked(t, f)
    ensures Inv(Emptied(Spent(t), f), domains) && Evolves(t, Emptied(Spent(t), f))
  {
    SpendStep(t, Spent(t), domains);
    EmptyStep(Spent(t), domains, f);
    EvolvesTransitive(t, Spent(t), Emptied(Spent(t), f));
  }

  lemma SpendStep(t: Tables, u: Tables, domains: map<Id, Id>)
    requires Inv(t, domains) && u == Spent(t)
    ensures Inv(u, domains) && Evolves(t, u)
  {
    assert forall i :: i in t.handles ==> HandleFades(t, u, t.handles[i], u.handles[i]);
    assert forall i :: i in t.locks ==> LockFades(t, u, t.locks[i], u.locks[i]);
    LeaseStep(t, u, domains);
  }

  lemma EmptyStep(t: Tables, domains: map<Id, Id>, f: Id)
    requires Inv(t, domains) && Alive(t, f) && Unlocked(t, f)
    ensures Inv(Emptied(t, f), domains) && Evolves(t, Emptied(t, f))
  {
    var s := Empty(f, Current(t, f).epoch + 1, Current(t, f).version + 1, t.nodes[f].blockSize);
    assert NodeOk(t, f);
    EmptyOk(f, Current(t, f).epoch + 1, Current(t, f).version + 1, t.nodes[f].blockSize);
    UnlockedRespects(t, domains, f, s);
    PublishStep(t, Published(t, f, s), domains, f, s);
  }

  function DefaultPolicy(cfg: Config): Policy {
    var w := if cfg.replicas == 3 then 2 else 1; Terms(cfg.replicas, w, 1, ACTIVE, w)
  }

  /** The tables with a new, empty file f. */
  function WithFile(t: Tables, cfg: Config): Tables {
    Created(t, t.uids, Empty(t.uids, 1, 1, cfg.blockSize), t.uids + 1, 2, DefaultPolicy(cfg))
  }

  lemma WithFileStep(t: Tables, domains: map<Id, Id>, cfg: Config)
    requires Inv(t, domains) && cfg.blockSize > 0
    ensures Inv(WithFile(t, cfg), domains) && Evolves(t, WithFile(t, cfg))
  {
    EmptyOk(t.uids, 1, 1, cfg.blockSize);
    forall o | o in t.ops && t.ops[o].Upload? && t.ops[o].phase == PREPARING && t.ops[o].base == ABSENT ensures t.ops[o].file != t.uids {
      assert OpOk(t, o);
    }
    CreateStep(t, WithFile(t, cfg), domains, t.uids, Empty(t.uids, 1, 1, cfg.blockSize), t.uids + 1, 2, DefaultPolicy(cfg));
  }

  /** The tables and the file once Open has found, emptied or made it. */
  function FileReady(t: Tables, cfg: Config, found: Id, mode: Mode): (Tables, Id) {
    if !Creates(mode) then (t, found)
    else if Alive(t, found) then (Emptied(Spent(t), found), found)
    else (WithFile(t, cfg), t.uids)
  }

  function WithHandle(t: Tables, h: Handle): Tables {
    t.(uids := t.uids + 1, handles := t.handles[t.uids := h])
  }

  method ReadyFile(tx: Transaction, session: Id, found: Id, mode: Mode, reserved: bool) returns (r: Result<Id>)
    requires tx.Valid()
    modifies tx
    ensures tx.Kept()
    ensures r.Ok? <==> MayOpen(old(tx.t), found, mode, reserved)
    ensures r.Ok? ==> (tx.t, r.value) == FileReady(old(tx.t), tx.cfg, found, mode) && Alive(tx.t, r.value)
  {
    var t := tx.t;
    EvolvesReflexive(t, tx.domains);
    if Alive(t, found) && Writes(mode) && PolicyOf(t, found).state == PROMOTING {
      return Err(LockBusy);
    }
    if !Creates(mode) {
      return if Alive(t, found) then Ok(found) else Err(NotFound);
    }
    if Alive(t, found) && mode in {X, XPlus} {
      return Err(AlreadyExists);
    }
    if reserved {
      return Err(LockBusy);
    }
    if Alive(t, found) {
      var truncated := Truncate(tx, session, found);
      return if truncated.Ok? then Ok(found) else Err(truncated.reason);
    }
    WithFileStep(t, tx.domains, tx.cfg);
    tx.t := WithFile(t, tx.cfg);
    return Ok(t.uids);
  }

  /** Open a file, truncate it or make it: the new handle stands for the file's current snapshot. room says that the
      quotas on live handles leave room for one more. */
  method Open(tx: Transaction, session: Id, found: Id, mode: Mode, reserved: bool, room: bool) returns (r: Result<Id>)
    requires tx.Valid()
    modifies tx
    ensures tx.Kept()
    ensures r.Err? ==> tx.t == old(tx.t)
    ensures r.Ok? <==> room && MayOpen(old(tx.t), found, mode, reserved)
    ensures r.Ok? ==>
      var (u, f) := FileReady(old(tx.t), tx.cfg, found, mode);
      Alive(u, f) && r.value == u.uids && tx.t == WithHandle(u, NewHandle(u, tx.cfg, f, session, mode))
    ensures r.Ok? ==> Opened(old(tx.t), tx.t, tx.cfg, session, found, mode, r.value)
  {
    var before := tx.t;
    if !room {
      EvolvesReflexive(before, tx.domains);
      return Err(LimitExceeded);
    }
    var file := ReadyFile(tx, session, found, mode, reserved);
    if file.Err? {
      tx.t := before;
      EvolvesReflexive(before, tx.domains);
      return Err(file.reason);
    }
    var u := tx.t;
    var h := NewHandle(u, tx.cfg, file.value, session, mode);
    HandleStep(u, WithHandle(u, h), tx.domains, u.uids);
    EvolvesTransitive(before, u, WithHandle(u, h));
    tx.t := WithHandle(u, h);
    OpenedHandle(before, u, tx.t, tx.domains, tx.cfg, session, found, file.value, mode);
    return Ok(u.uids);
  }

  /** The new handle can be used by its session at once, in its mode, and stands for its file's current snapshot. That is
      the one found, if the mode does not create; it is empty, of the next content epoch or the first one, if it does.
      A new file gets the configured policy. Other files, handles, locks, operations and blocks are as they were. */
  ghost predicate Opened(t: Tables, v: Tables, cfg: Config, session: Id, found: Id, mode: Mode, i: Id) {
    && i !in t.handles && i in v.handles && v.handles == t.handles[i := v.handles[i]]
    && var h := v.handles[i];
    && HandleFault(v, session, i) == None && (Writes(mode) ==> WritableFault(v, session, i) == None)
    && h.mode == mode && h.revision == 1 && h.busy == ABSENT && h.maximum == t.clock + DAY
    && Alive(v, h.file) && h.snapshot == v.nodes[h.file].snapshot
    && OnlyFile(t, v.(handles := t.handles), h.file)
    && (if !Creates(mode) then h.file == found && v.nodes == t.nodes && v.snapshots == t.snapshots && v.policies == t.policies
        else if Alive(t, found) then h.file == found && v.policies == t.policies && FileEmptied(t, v, found)
        else FileMade(t, v, cfg, h.file))
  }

  /** The file is empty, of the next content epoch and version. */
  ghost predicate FileEmptied(t: Tables, v: Tables, f: Id) {
    && Alive(t, f) && Alive(v, f) && Content(Current(v, f).blocks) == [] && Current(v, f).total == 0
    && Current(v, f).epoch == Current(t, f).epoch + 1 && Current(v, f).version == Current(t, f).version + 1
  }

  /** The file is new and empty, under the configured policy. */
  ghost predicate FileMade(t: Tables, v: Tables, cfg: Config, f: Id) {
    && f !in t.nodes && Alive(v, f) && Content(Current(v, f).blocks) == [] && Current(v, f).total == 0
    && Current(v, f).epoch == 1 && Current(v, f).version == 1 && Current(v, f).blockSize == cfg.blockSize
    && f in v.policies && v.policies == t.policies[f := v.policies[f]]
    && (f !in t.policies ==> FirstPolicy(v.policies[f], cfg))
  }

  /** As many copies as configured, a majority of them durable. */
  predicate FirstPolicy(p: Policy, cfg: Config) {
    p.r == cfg.replicas && p.w == p.r / 2 + 1 && p.first == p.w && p.revision == 1 && p.state == ACTIVE
  }

  lemma OpenedHandle(t: Tables, u: Tables, v: Tables, domains: map<Id, Id>, cfg: Config, session: Id, found: Id, f: Id, mode: Mode)
    requires Inv(t, domains) && ConfigOk(cfg) && MayOpen(t, found, mode, false) && (u, f) == FileReady(t, cfg, found, mode) && Alive(u, f)
    requires v == WithHandle(u, NewHandle(u, cfg, f, session, mode))
    ensures Opened(t, v, cfg, session, found, mode, u.uids)
  {
    HandleReady(u, v, cfg, session, f, mode);
    FileIsReady(t, u, cfg, found, f, mode);
    FileStays(t, u, v, cfg, found, f, mode);
  }

  /** The new handle changes nothing of files. */
  lemma FileStays(t: Tables, u: Tables, v: Tables, cfg: Config, found: Id, f: Id, mode: Mode)
    requires v == u.(uids := v.uids, handles := v.handles) && OnlyFile(t, u, f)
    ensures OnlyFile(t, v.(handles := t.handles), f)
    ensures FileMade(t, v, cfg, f) <==> FileMade(t, u, cfg, f)
    ensures FileEmptied(t, v, found) <==> FileEmptied(t, u, found)
  {
  }

  lemma FileIsReady(t: Tables, u: Tables, cfg: Config, found: Id, f: Id, mode: Mode)
    requires IdsOk(t) && ConfigOk(cfg) && MayOpen(t, found, mode, false) && (u, f) == FileReady(t, cfg, found, mode)
    ensures OnlyFile(t, u, f) && u.clock == t.clock && u.epoch == t.epoch && t.uids <= u.uids
    ensures if !Creates(mode) then f == found && u.nodes == t.nodes && u.snapshots == t.snapshots && u.policies == t.policies
            else if Alive(t, found) then f == found && u.policies == t.policies && FileEmptied(t, u, found)
            else FileMade(t, u, cfg, f)
  {
    if Creates(mode) {
      if Alive(t, found) {
        EmptiedReady(t, u, found);
      } else {
        MadeReady(t, u, cfg);
      }
    }
  }

  lemma EmptiedReady(t: Tables, u: Tables, f: Id)
    requires IdsOk(t) && Alive(t, f) && u == Emptied(Spent(t), f)
    ensures OnlyFile(t, u, f) && u.clock == t.clock && u.epoch == t.epoch && t.uids <= u.uids && u.policies == t.policies && FileEmptied(t, u, f)
  {
    TruncatedFile(t, f, u);
  }

  lemma MadeReady(t: Tables, u: Tables, cfg: Config)
    requires IdsOk(t) && ConfigOk(cfg) && u == WithFile(t, cfg)
    ensures OnlyFile(t, u, t.uids) && u.clock == t.clock && u.epoch == t.epoch && t.uids <= u.uids && FileMade(t, u, cfg, t.uids)
  {
    MadeFile(t, cfg, u);
  }

  lemma HandleReady(u: Tables, v: Tables, cfg: Config, session: Id, f: Id, mode: Mode)
    requires ConfigOk(cfg) && Alive(u, f) && v == WithHandle(u, NewHandle(u, cfg, f, session, mode))
    ensures u.uids in v.handles && v.handles[u.uids].mode == mode && HandleFault(v, session, u.uids) == None
    ensures Writes(mode) ==> WritableFault(v, session, u.uids) == None
  {
  }

  /** Everything but file f is as it was. */
  ghost predicate OnlyFile(t: Tables, u: Tables, f: Id) {
    && (forall g :: g in t.nodes && g != f ==> g in u.nodes && u.nodes[g] == t.nodes[g])
    && (forall s :: s in t.snapshots ==> s in u.snapshots && u.snapshots[s] == t.snapshots[s])
    && u.handles == t.handles && u.locks == t.locks && u.ops == t.ops && u.blocks == t.blocks
  }

  lemma TruncatedFile(t: Tables, f: Id, u: Tables)
    requires IdsOk(t) && Alive(t, f) && u == Emptied(Spent(t), f)
    ensures OnlyFile(t, u, f) && Alive(u, f)
    ensures Content(Current(u, f).blocks) == [] && Current(u, f).total == 0
    ensures Current(u, f).epoch == Current(t, f).epoch + 1 && Current(u, f).version == Current(t, f).version + 1
  {
  }

  lemma MadeFile(t: Tables, cfg: Config, u: Tables)
    requires IdsOk(t) && u == WithFile(t, cfg)
    ensures OnlyFile(t, u, t.uids) && t.uids !in t.nodes && Alive(u, t.uids)
    ensures Content(Current(u, t.uids).blocks) == [] && Current(u, t.uids).total == 0
  {
  }

  /** Truncation cuts off every handle that was open on the file: none of them can write any more. */
  lemma TruncationFences(t: Tables, domains: map<Id, Id>, f: Id, session: Id, i: Id)
    requires Inv(t, domains) && Alive(t, f) && i in t.handles && t.handles[i].file == f
    ensures WritableFault(Emptied(Spent(t), f), session, i) != None
  {
    assert HandleOk(t, i);
    SpendStep(t, Spent(t), domains);
  }

  // ---------------------------------------------------------------- leases of handles

  predicate Owns(t: Tables, session: Id, i: Id) {
    i in t.handles && t.handles[i].session == session
  }

  method RenewHandle(tx: Transaction, session: Id, i: Id) returns (r: Result<()>)
    requires tx.Valid()
    modifies tx
    ensures tx.Kept()
    ensures r.Ok? <==> HandleFault(old(tx.t), session, i) == None
    ensures r.Err? ==> tx.t == old(tx.t)
    ensures r.Ok? ==>
      var t, h := old(tx.t), old(tx.t).handles[i];
      tx.t == t.(handles := t.handles[i := h.(deadline := Min(t.clock + tx.cfg.handleSeconds, h.maximum))])
  {
    var t := tx.t;
    EvolvesReflexive(t, tx.domains);
    var fault := HandleFault(t, session, i);
    if fault.Some? {
      return Err(fault.value);
    }
    var h := t.handles[i].(deadline := Min(t.clock + tx.cfg.handleSeconds, t.handles[i].maximum));
    LeaseStepOn(t, t.(handles := t.handles[i := h]), tx.domains);
    tx.t := t.(handles := t.handles[i := h]);
    return Ok(());
  }

  /** LeaseStep where no lock is new. */
  lemma LeaseStepOn(t: Tables, t': Tables, domains: map<Id, Id>)
    requires Inv(t, domains) && LeasesOnly(t, t') && HandlesFade(t, t')
    requires forall i :: i in t'.locks ==> i in t.locks && LockFades(t, t', t.locks[i], t'.locks[i])
    ensures Inv(t', domains) && Evolves(t, t')
  {
    LeaseStep(t, t', domains);
  }

  /** A free handle closes and its locks go with it; closing it again changes nothing. */
  method Close(tx: Transaction, session: Id, i: Id) returns (r: Result<()>)
    requires tx.Valid()
    modifies tx
    ensures tx.Kept()
    ensures r.Ok? <==> Owns(old(tx.t), session, i) && (old(tx.t).handles[i].closed || old(tx.t).handles[i].busy == ABSENT)
    ensures r.Err? ==> tx.t == old(tx.t)
    ensures r.Ok? && old(tx.t).handles[i].closed ==> tx.t == old(tx.t)
    ensures r.Ok? && !old(tx.t).handles[i].closed ==>
      var t, h := old(tx.t), old(tx.t).handles[i];
      && tx.t == t.(handles := t.handles[i := h.(closed := true, revision := h.revision + 1)], locks := tx.t.locks)
      && (forall l :: l in tx.t.locks <==> l in t.locks && !(t.locks[l].holder == i && t.locks[l].session == session))
      && (forall l :: l in tx.t.locks ==> tx.t.locks[l] == t.locks[l])
  {
    var t := tx.t;
    EvolvesReflexive(t, tx.domains);
    if !Owns(t, session, i) {
      return Err(StaleHandle);
    }
    if t.handles[i].closed {
      return Ok(());
    }
    if t.handles[i].busy != ABSENT {
      return Err(HandleBusy);
    }
    var h := t.handles[i].(closed := true, revision := t.handles[i].revision + 1);
    var locks, left := t.locks, t.locks.Keys;
    while left != {}
      invariant left <= t.locks.Keys && locks.Keys <= t.locks.Keys
      invariant forall l :: l in locks ==> locks[l] == t.locks[l]
      invariant forall l :: l in left ==> l in locks
      invariant forall l :: l in t.locks && l !in left ==> (l in locks <==> !(t.locks[l].holder == i && t.locks[l].session == session))
    {
      var l :| l in left;
      left := left - {l};
      if t.locks[l].holder == i && t.locks[l].session == session {
        locks := locks - {l};
      }
    }
    LeaseStepOn(t, t.(handles := t.handles[i := h], locks := locks), tx.domains);
    tx.t := t.(handles := t.handles[i := h], locks := locks);
    return Ok(());
  }

  // ---------------------------------------------------------------- explicit locks

  /** Why a range is refused. */
  function RangeFault(offset: nat, length: nat): Option<Reason> {
    if !CheckedRange(offset, length) then Some(InvalidArgument)
    else if length > MAX_DELTA then Some(LimitExceeded)
    else None
  }

  predicate Among(k: nat, first: nat, last: nat) { first <= k <= last }

  /** The blocks that the bytes of a nonempty range lie in. */
  function Touched(offset: nat, length: nat, size: nat): set<nat>
    requires size > 0 && length > 0
  {
    var first, last := Div(offset, size), Div(offset + length - 1, size);
    set k: nat {:trigger Among(k, first, last)} | k <= last && Among(k, first, last)
  }

  ghost predicate InBlock(b: nat, k: nat, size: nat) {
    Mul(k, size) <= b < Mul(k, size) + size
  }

  /** A range lock names exactly the blocks that share a byte with the range. */
  lemma TouchedBlocks(offset: nat, length: nat, size: nat, k: nat)
    requires size > 0 && length > 0
    ensures k in Touched(offset, length, size) <==> exists b {:trigger InBlock(b, k, size)} :: offset <= b < offset + length && InBlock(b, k, size)
  {
    var first, last := Div(offset, size), Div(offset + length - 1, size);
    DivSplit(offset, size);
    DivSplit(offset + length - 1, size);
    assert k in Touched(offset, length, size) <==> Among(k, first, last);
    if first <= k <= last {
      MulMonotone(first, k, size);
      MulMonotone(k, last, size);
      assert InBlock(Max(offset, Mul(k, size)), k, size);
    } else if k < first {
      MulMonotone(k, first, size);
    } else {
      MulMonotone(last, k, size);
    }
  }

  /** The lock a handle asks for: the whole file with its size, or the blocks of a range. */
  function Requested(t: Tables, cfg: Config, session: Id, i: Id, whole: bool, offset: nat, length: nat): Lock
    requires WritableFault(t, session, i) == None && (whole || length > 0) && t.snapshots[t.handles[i].snapshot].blockSize > 0
  {
    var h := t.handles[i];
    Wanted(t, cfg, i, h.file, session, if whole then {} else Touched(offset, length, t.snapshots[h.snapshot].blockSize), whole, whole, false)
  }

  predicate MayLock(t: Tables, cfg: Config, session: Id, i: Id, whole: bool, offset: nat, length: nat) {
    && WritableFault(t, session, i) == None && t.handles[i].busy == ABSENT
    && (whole || (length > 0 && RangeFault(offset, length) == None))
    && t.snapshots[t.handles[i].snapshot].blockSize > 0
    && NoConflict(t, Requested(t, cfg, session, i, whole, offset, length))
  }

  method LockFile(tx: Transaction, session: Id, i: Id, whole: bool, offset: nat, length: nat) returns (r: Result<Id>)
    requires tx.Valid()
    modifies tx
    ensures tx.Kept()
    ensures r.Ok? <==> MayLock(old(tx.t), tx.cfg, session, i, whole, offset, length)
    ensures r.Err? ==> tx.t == old(tx.t)
    ensures r.Ok? ==> r.value == old(tx.t).uids && tx.t == Acquired(old(tx.t), Requested(old(tx.t), tx.cfg, session, i, whole, offset, length))
    ensures r.Ok? ==> LockTaken(old(tx.t), tx.t, tx.cfg, session, i, whole, offset, length, r.value)
  {
    var t := tx.t;
    EvolvesReflexive(t, tx.domains);
    var fault := WritableFault(t, session, i);
    if fault.Some? {
      return Err(fault.value);
    }
    WritableHandle(t, tx.domains, session, i);
    assert NodeOk(t, t.handles[i].file);
    var h, indices := t.handles[i], {};
    if h.busy != ABSENT {
      return Err(HandleBusy);
    }
    if !whole {
      if length == 0 {
        return Err(InvalidArgument);
      }
      var range := RangeFault(offset, length);
      if range.Some? {
        return Err(range.value);
      }
      indices := Touched(offset, length, t.snapshots[h.snapshot].blockSize);
    }
    r := Acquire(tx, i, h.file, session, indices, whole, whole, false);
    if r.Ok? {
      TakenLock(t, tx.t, tx.cfg, session, i, indices, whole, offset, length);
    }
  }

  /** The lock on the whole file with its size, or on just the blocks that share a byte with the range: live, the
      handle's own, of a new generation, and on no operation's account. Nothing else has changed. */
  ghost predicate LockTaken(t: Tables, u: Tables, cfg: Config, session: Id, i: Id, whole: bool, offset: nat, length: nat, l: Id) {
    && i in t.handles && t.handles[i].snapshot in t.snapshots && l !in t.locks && l in u.locks
    && u == t.(uids := u.uids, sequence := u.sequence, locks := t.locks[l := u.locks[l]])
    && var lock := u.locks[l];
    && lock.holder == i && lock.file == t.handles[i].file && lock.session == session && lock.generation == u.sequence > t.sequence
    && lock.whole == whole && lock.size == whole && !lock.automatic && lock.active == {}
    && LockLive(u, lock) && lock.deadline == t.clock + cfg.lockSeconds
    && (whole ==> lock.indices == {})
    && (!whole ==> forall k :: k in lock.indices <==>
          exists b {:trigger InBlock(b, k, t.snapshots[t.handles[i].snapshot].blockSize)} ::
            offset <= b < offset + length && InBlock(b, k, t.snapshots[t.handles[i].snapshot].blockSize))
  }

  lemma TakenLock(t: Tables, u: Tables, cfg: Config, session: Id, i: Id, indices: set<nat>, whole: bool, offset: nat, length: nat)
    requires ConfigOk(cfg) && IdsOk(t) && i in t.handles && t.handles[i].snapshot in t.snapshots && t.snapshots[t.handles[i].snapshot].blockSize > 0
    requires whole || length > 0
    requires indices == if whole then {} else Touched(offset, length, t.snapshots[t.handles[i].snapshot].blockSize)
    requires u == Acquired(t, Wanted(t, cfg, i, t.handles[i].file, session, indices, whole, whole, false))
    ensures LockTaken(t, u, cfg, session, i, whole, offset, length, t.uids)
  {
    GrantedLock(t, u, cfg, i, t.handles[i].file, session, indices, whole, whole, false);
    if !whole {
      var size := t.snapshots[t.handles[i].snapshot].blockSize;
      forall k ensures k in indices <==> exists b {:trigger InBlock(b, k, size)} :: offset <= b < offset + length && InBlock(b, k, size) {
        TouchedBlocks(offset, length, size, k);
      }
    }
  }

  /** A held lock of a handle that can still write is held on. */
  method RenewLock(tx: Transaction, session: Id, f: Fence) returns (r: Result<()>)
    requires tx.Valid()
    modifies tx
    ensures tx.Kept()
    ensures r.Ok? <==> WritableFault(old(tx.t), session, f.holder) == None && FenceHeld(old(tx.t), session, f)
    ensures r.Err? ==> tx.t == old(tx.t)
    ensures r.Ok? ==>
      var t := old(tx.t);
      tx.t == t.(locks := t.locks[f.lock := t.locks[f.lock].(deadline := t.clock + tx.cfg.lockSeconds)])
  {
    var t := tx.t;
    EvolvesReflexive(t, tx.domains);
    var fault := WritableFault(t, session, f.holder);
    if fault.Some? {
      return Err(fault.value);
    }
    fault := FenceFault(t, session, f);
    if fault.Some? {
      return Err(fault.value);
    }
    var l := t.locks[f.lock].(deadline := t.clock + tx.cfg.lockSeconds);
    LeaseStepOn(t, t.(locks := t.locks[f.lock := l]), tx.domains);
    tx.t := t.(locks := t.locks[f.lock := l]);
    return Ok(());
  }

  /** A held lock goes, unless an operation still relies on it. */
  method Unlock(tx: Transaction, session: Id, f: Fence) returns (r: Result<()>)
    requires tx.Valid()
    modifies tx
    ensures tx.Kept()
    ensures r.Ok? <==> FenceHeld(old(tx.t), session, f) && old(tx.t).locks[f.lock].active == {}
    ensures r.Err? ==> tx.t == old(tx.t)
    ensures r.Ok? ==> tx.t == old(tx.t).(locks := old(tx.t).locks - {f.lock})
  {
    var t := tx.t;
    EvolvesReflexive(t, tx.domains);
    var fault := FenceFault(t, session, f);
    if fault.Some? {
      return Err(fault.value);
    }
    if t.locks[f.lock].active != {} {
      return Err(LockBusy);
    }
    LeaseStepOn(t, t.(locks := t.locks - {f.lock}), tx.domains);
    tx.t := t.(locks := t.locks - {f.lock});
    return Ok(());
  }
}
