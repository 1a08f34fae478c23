/** Leases on handles and locks. The transaction holds the tables that every command changes in one atomic step, and
    locks are granted, checked and given back in the very transaction that relies on them, under one clock. */
module Leases {
  import opened Bytes
  import opened Layout
  import opened Tables
  import opened Steps
  import opened Progress

  /** In seconds, bytes and copies. */
  datatype Config = Config(lockSeconds: nat, handleSeconds: nat, maxFileBytes: nat, blockSize: nat, replicas: nat)

  predicate ConfigOk(c: Config) {
    0 < c.lockSeconds <= 300 && 0 < c.handleSeconds <= 3600 && c.blockSize > 0 && c.replicas in {1, 3}
  }

  const MAX_DELTA := 16777216
  const MAX_FENCES := 6
  const DAY := 86400

  /** A new file system: no file, no handle, no block. */
  function Start(): Tables {
    Tables(0, 1, 1, 0, map[], map[], map[], map[], map[], map[], map[], {}, map[], map[], map[])
  }

  /** The tables as one write transaction sees them; domains is the administrative list of nodes. */
  class Transaction {
    var t: Tables
    const cfg: Config
    const domains: map<Id, Id>

    ghost predicate Valid()
      reads this
    {
      ConfigOk(cfg) && Inv(t, domains)
    }

    constructor (cfg: Config, domains: map<Id, Id>)
      requires ConfigOk(cfg)
      ensures Valid() && this.cfg == cfg && this.domains == domains && t == Start()
    {
      this.cfg, this.domains, t := cfg, domains, Start();
    }

    /** What every command keeps, and what it never undoes. */
    twostate predicate Kept()
      reads this
    {
      Valid() && Evolves(old(t), t)
    }

    method NewId() returns (i: Id)
      requires Valid()
      modifies this
      ensures Kept() && i == old(t.uids) && t == old(t).(uids := i + 1)
    {
      i := t.uids;
      LeaseStep(t, t.(uids := i + 1), domains);
      t := t.(uids := i + 1);
    }

    /** Time passes; nothing is told. */
    method Tick(seconds: nat)
      requires Valid()
      modifies this
      ensures Kept() && t == old(t).(clock := old(t).clock + seconds)
    {
      var t' := t.(clock := t.clock + seconds);
      LeaseStep(t, t', domains);
      t := t';
    }

    /** A control restarts: a new epoch, no lock, every handle closed, every operation aborted. */
    method Restart()
      requires Valid()
      modifies this
      ensures Kept() && t.epoch == old(t).epoch + 1 && t.locks == map[]
      ensures forall i :: i in t.handles ==> t.handles[i].closed && !HandleLive(t, t.handles[i])
      ensures forall o :: o in t.ops ==> t.ops[o].phase != PREPARING
      ensures t == old(t).(epoch := t.epoch, locks := map[], handles := t.handles, ops := t.ops)
      ensures t.handles.Keys == old(t).handles.Keys && t.ops.Keys == old(t).ops.Keys
      ensures forall i :: i in t.handles ==> t.handles[i] == old(t).handles[i].(closed := true)
      ensures forall o :: o in t.ops ==>
        t.ops[o] == if old(t).ops[o].phase == PREPARING then old(t).ops[o].(phase := ABORTED) else old(t).ops[o]
    {
      RestartStep(t, domains);
      t := Restarted(t);
    }
  }

  function Restarted(t: Tables): Tables {
    t.(epoch := t.epoch + 1, locks := map[], handles := map i | i in t.handles :: t.handles[i].(closed := true),
       ops := map o | o in t.ops :: if t.ops[o].phase == PREPARING then t.ops[o].(phase := ABORTED) else t.ops[o])
  }

  lemma RestartStep(t: Tables, domains: map<Id, Id>)
    requires Inv(t, domains)
    ensures Inv(Restarted(t), domains) && Evolves(t, Restarted(t))
  {
    var t' := Restarted(t);
    var middle := t.(ops := t'.ops);
    assert forall o :: o in t.ops ==> PhaseEnds(t.ops[o], middle.ops[o]);
    EndStep(t, middle, domains);
    assert forall i :: i in t.handles ==> HandleFades(middle, t', middle.handles[i], t'.handles[i]);
    LeaseStep(middle, t', domains);
    EvolvesTransitive(t, middle, t');
  }

  // ---------------------------------------------------------------- fences

  /** validate(): why a fence is refused. */
  function FenceFault(t: Tables, session: Id, f: Fence): (r: Option<Reason>)
    ensures r == None <==> FenceHeld(t, session, f)
  {
    if f.lock !in t.locks then
      Some(LockExpired)
    else
      var l := t.locks[f.lock];
      if l.session != session || l.holder != f.holder then Some(PermissionDenied)
      else if !(LockLive(t, l) && f.epoch == t.epoch && f.generation == l.generation) then Some(LockExpired)
      else if FenceOf(f.lock, l) != f then Some(PermissionDenied)
      else None
  }

  // ---------------------------------------------------------------- acquire

  /** No live lock of another owner stands in the way of l. */
  predicate NoConflict(t: Tables, l: Lock) {
    forall j :: j in t.locks && Stands(t, t.locks[j], l) ==> !Clash(t.locks[j], l)
  }

  predicate Stands(t: Tables, other: Lock, l: Lock) {
    LockLive(t, other) && other.file == l.file && !SameOwner(other, l)
  }

  function Wanted(t: Tables, cfg: Config, holder: Id, file: Id, session: Id, indices: set<nat>, whole: bool, size: bool, automatic: bool): Lock {
    Lock(holder, file, session, t.sequence + 1, indices, whole, size, automatic, {}, t.epoch, t.clock + cfg.lockSeconds)
  }

  function Acquired(t: Tables, l: Lock): Tables {
    t.(uids := t.uids + 1, sequence := t.sequence + 1, locks := t.locks[t.uids := l])
  }

  /** A lock is granted exactly if no live lock of another owner on the file clashes with it, under a new
      identifier and a generation that no lock had before. */
  method Acquire(tx: Transaction, holder: Id, file: Id, session: Id, indices: set<nat>, whole: bool, size: bool, automatic: bool)
    returns (r: Result<Id>)
    requires tx.Valid() && holder < tx.t.uids && file < tx.t.uids && (holder in tx.t.handles ==> tx.t.handles[holder].file == file)
    modifies tx
    ensures tx.Kept()
    ensures r.Ok? <==> NoConflict(old(tx.t), Wanted(old(tx.t), tx.cfg, holder, file, session, indices, whole, size, automatic))
    ensures r.Ok? ==> r.value == old(tx.t.uids) && tx.t == Acquired(old(tx.t), Wanted(old(tx.t), tx.cfg, holder, file, session, indices, whole, size, automatic))
    ensures r.Err? ==> r.reason == LockConflict && tx.t == old(tx.t)
  {
    var t := tx.t;
    var wanted := Wanted(t, tx.cfg, holder, file, session, indices, whole, size, automatic);
    var left := t.locks.Keys;
    while left != {}
      invariant left <= t.locks.Keys
      invariant forall j :: j in t.locks && j !in left && Stands(t, t.locks[j], wanted) ==> !Clash(t.locks[j], wanted)
    {
      var j :| j in left;
      left := left - {j};
      var l := t.locks[j];
      if Stands(t, l, wanted) {
        if whole || l.whole || (size && l.size) || indices * l.indices != {} {
          assert Clash(l, wanted);
          return Err(LockConflict);
        }
      }
    }
    AcquireStep(t, tx.domains, wanted);
    tx.t := Acquired(t, wanted);
    return Ok(t.uids);
  }

  /** A granted lock is live, as wide as was asked for, on no operation's account yet, and of a generation of its own;
      nothing else has changed. */
  lemma GrantedLock(t: Tables, u: Tables, cfg: Config, holder: Id, file: Id, session: Id, indices: set<nat>, whole: bool, size: bool, automatic: bool)
    requires ConfigOk(cfg) && u == Acquired(t, Wanted(t, cfg, holder, file, session, indices, whole, size, automatic))
    ensures var l := Lock(holder, file, session, t.sequence + 1, indices, whole, size, automatic, {}, t.epoch, t.clock + cfg.lockSeconds);
      u == t.(uids := t.uids + 1, sequence := t.sequence + 1, locks := t.locks[t.uids := l]) && LockLive(u, l)
  {
  }

  lemma AcquireStep(t: Tables, domains: map<Id, Id>, l: Lock)
    requires Inv(t, domains) && NoConflict(t, l) && l.active == {} && HolderOk(t, l)
    ensures Inv(Acquired(t, l), domains) && Evolves(t, Acquired(t, l))
  {
    var t' := Acquired(t, l);
    assert Isolated(t', t.uids);
    assert forall i :: i in t.locks ==> LockFades(t, t', t.locks[i], t'.locks[i]);
    assert forall i :: i in t.handles ==> HandleFades(t, t', t.handles[i], t'.handles[i]);
    LeaseStep(t, t', domains);
  }

  // ---------------------------------------------------------------- release

  /** The locks after operation o has left those of its fences. */
  function LocksWithout(locks: map<Id, Lock>, fences: seq<Fence>, o: Id): map<Id, Lock> {
    map i | i in locks && !(Names(fences, i) && o in locks[i].active && locks[i].automatic) ::
      if Names(fences, i) && o in locks[i].active then locks[i].(active := locks[i].active - {o}) else locks[i]
  }

  function HandlesWithout(handles: map<Id, Handle>, op: Operation, o: Id): map<Id, Handle> {
    if op.Write? && op.handle in handles && handles[op.handle].busy == o
    then handles[op.handle := handles[op.handle].(busy := ABSENT)] else handles
  }

  function Released(t: Tables, o: Id): Tables
    requires o in t.ops
  {
    t.(locks := LocksWithout(t.locks, t.ops[o].fences, o), handles := HandlesWithout(t.handles, t.ops[o], o))
  }

  /** The locks that a set of operations have let go of: the automatic ones are gone, the others no longer list them. */
  ghost predicate LetGo(t: Tables, u: Tables, gone: set<Id>) {
    && (forall l {:trigger l in u.locks} ::
          l in u.locks <==> l in t.locks && !(t.locks[l].automatic && t.locks[l].active * gone != {}))
    && (forall l {:trigger u.locks[l]} :: l in u.locks ==> u.locks[l] == t.locks[l].(active := t.locks[l].active - gone))
  }

  /** The handles that were busy with one of these writes are free, and no other has changed. */
  ghost predicate Freed(t: Tables, u: Tables, gone: set<Id>) {
    && u.handles.Keys == t.handles.Keys
    && forall i {:trigger u.handles[i]} :: i in u.handles ==>
         u.handles[i] == if t.handles[i].busy in gone && IsWriteOf(t, t.handles[i].busy, i) then t.handles[i].(busy := ABSENT) else t.handles[i]
  }

  predicate IsWriteOf(t: Tables, o: Id, i: Id) {
    o in t.ops && t.ops[o].Write? && t.ops[o].handle == i
  }

  lemma ReleasedLetsGo(t: Tables, u: Tables, o: Id)
    requires ActivesOk(t) && o in t.ops && u == Released(t, o)
    ensures LetGo(t, u, {o}) && Freed(t, u, {o})
  {
    forall l | l in t.locks ensures o in t.locks[l].active ==> Names(t.ops[o].fences, l) {
      assert ActiveOk(t, l);
    }
    forall l | l in t.locks ensures t.locks[l].active * {o} != {} <==> o in t.locks[l].active {
      assert o in t.locks[l].active ==> o in t.locks[l].active * {o};
    }
    assert forall l :: l in t.locks && o !in t.locks[l].active ==> t.locks[l].active - {o} == t.locks[l].active;
  }

  lemma LocksWithoutNext(locks: map<Id, Lock>, fences: seq<Fence>, k: nat, o: Id)
    requires k < |fences|
    ensures var before, i := LocksWithout(locks, fences[..k], o), fences[k].lock;
            LocksWithout(locks, fences[..k + 1], o) ==
            if i in before && o in before[i].active
            then (if before[i].automatic then before - {i} else before[i := before[i].(active := before[i].active - {o})])
            else before
  {
    var before, after := LocksWithout(locks, fences[..k], o), LocksWithout(locks, fences[..k + 1], o);
    forall i ensures Names(fences[..k + 1], i) <==> Names(fences[..k], i) || fences[k].lock == i {
      assert fences[..k + 1] == fences[..k] + [fences[k]];
      assert fences[k] in fences[..k + 1];
    }
  }

  lemma ReleasedStep(t: Tables, domains: map<Id, Id>, o: Id)
    requires Inv(t, domains) && o in t.ops && t.ops[o].phase != PREPARING
    ensures Inv(Released(t, o), domains) && Evolves(t, Released(t, o))
    ensures forall i :: i in Released(t, o).locks ==> o !in Released(t, o).locks[i].active
    ensures t.ops[o].Write? && t.ops[o].handle in t.handles ==> Released(t, o).handles[t.ops[o].handle].busy != o
  {
    var t' := Released(t, o);
    forall i | i in t'.locks ensures o !in t'.locks[i].active && LockReleases(t, t.locks[i], t'.locks[i]) {
      assert ActiveOk(t, i);
    }
    assert o != ABSENT;
    ReleaseStep(t, t', domains);
  }

  /** release_operation: the operation leaves each of its locks, its automatic ones go, and its handle is free. */
  method ReleaseOperation(tx: Transaction, o: Id)
    requires tx.Valid() && o in tx.t.ops && tx.t.ops[o].phase != PREPARING
    modifies tx
    ensures tx.Kept() && tx.t == Released(old(tx.t), o)
    ensures tx.t == old(tx.t).(locks := tx.t.locks, handles := tx.t.handles) && LetGo(old(tx.t), tx.t, {o}) && Freed(old(tx.t), tx.t, {o})
  {
    var t := tx.t;
    var op, locks, k := t.ops[o], t.locks, 0;
    assert locks == LocksWithout(t.locks, op.fences[..0], o);
    while k < |op.fences|
      invariant 0 <= k <= |op.fences| && locks == LocksWithout(t.locks, op.fences[..k], o)
    {
      LocksWithoutNext(t.locks, op.fences, k, o);
      var i := op.fences[k].lock;
      if i in locks && o in locks[i].active {
        if locks[i].automatic {
          locks := locks - {i};
        } else {
          locks := locks[i := locks[i].(active := locks[i].active - {o})];
        }
      }
      k := k + 1;
    }
    assert op.fences[..k] == op.fences;
    ReleasedStep(t, tx.domains, o);
    ReleasedLetsGo(t, Released(t, o), o);
    tx.t := t.(locks := locks, handles := HandlesWithout(t.handles, op, o));
  }
}
