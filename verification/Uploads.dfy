/** Whole-file uploads: begun under a lock on the whole file, staged block by block and page by page, sealed, and only
    then published. Here are the beginning of an upload, the lock that it takes and the record that it works on. */
module Uploads {
  import opened Bytes
  import opened Layout
  import opened Tables
  import opened Steps
  import opened Progress
  import opened Leases
  import opened Handles
  import opened Commits
  import opened Writes
  import Manifest

  const TRANSFER_SECONDS := 300

  // ---------------------------------------------------------------- beginning

  /** existing is the file that the path leads to, if any; reserved says that another upload has taken the name. */
  predicate MayUpload(t: Tables, cfg: Config, existing: Id, overwrite: bool, expected: Id, total: nat, reserved: bool) {
    && total <= cfg.maxFileBytes && !reserved
    && if Alive(t, existing)
       then overwrite && expected == t.nodes[existing].snapshot && Unlocked(t, existing) && PolicyOf(t, existing).state != PROMOTING
       else expected == ABSENT
  }

  /** The upload's identifier, its file's if that is new, and its lock on the whole file. */
  method TakeFile(tx: Transaction, session: Id, existing: Id) returns (o: Id, f: Id, r: Result<Id>)
    requires tx.Valid()
    modifies tx
    ensures tx.Kept()
    ensures tx.t == old(tx.t).(uids := tx.t.uids, sequence := tx.t.sequence, locks := tx.t.locks)
    ensures forall i :: i in old(tx.t).locks ==> i in tx.t.locks && tx.t.locks[i] == old(tx.t).locks[i]
    ensures o == old(tx.t).uids && o < tx.t.uids && f < tx.t.uids
    ensures f == if Alive(old(tx.t), existing) then existing else o + 1
    ensures r.Ok? <==> (Alive(old(tx.t), existing) ==> Unlocked(old(tx.t), existing))
    ensures r.Ok? ==> r.value !in old(tx.t).locks && r.value in tx.t.locks && Fresh(tx.t, tx.t.locks[r.value], o, f, session)
  {
    ghost var t := tx.t;
    o := tx.NewId();
    f := existing;
    if !Alive(tx.t, existing) {
      f := tx.NewId();
    }
    ghost var t1 := tx.t;
    FreshOwner(t, t1, Wanted(t1, tx.cfg, o, f, session, {}, true, true, true));
    r := Acquire(tx, o, f, session, {}, true, true, true);
    EvolvesTransitive(t, t1, tx.t);
  }

  /** The lock is held on the whole file, by the upload alone. */
  predicate Fresh(t: Tables, l: Lock, o: Id, f: Id, session: Id) {
    && l.holder == o && l.file == f && l.session == session && l.whole && l.size && l.automatic && l.active == {} && LockLive(t, l)
  }

  function NewUpload(t: Tables, cfg: Config, session: Id, f: Id, fence: Fence, total: nat): Operation {
    if Alive(t, f)
    then Upload(f, session, PREPARING, [fence], PolicyOf(t, f).revision, t.nodes[f].blockSize, Current(t, f).epoch + 1, t.nodes[f].snapshot, total, map[], map[], false)
    else Upload(f, session, PREPARING, [fence], DefaultPolicy(cfg).revision, cfg.blockSize, 1, ABSENT, total, map[], map[], false)
  }

  /** The upload is recorded, its lock lists it for as long as a transfer may take, and its file has a policy. */
  function UploadEntered(t: Tables, cfg: Config, o: Id, op: Operation, l: Id): Tables
    requires l in t.locks
  {
    t.(ops := t.ops[o := op], locks := t.locks[l := t.locks[l].(active := {o}, deadline := t.clock + TRANSFER_SECONDS)],
       policies := if op.file in t.policies then t.policies else t.policies[op.file := DefaultPolicy(cfg)])
  }

  lemma UploadEnters(t: Tables, u: Tables, cfg: Config, session: Id, o: Id, f: Id, l: Id, total: nat, op: Operation)
    requires IdsOk(t) && l in t.locks && Fresh(t, t.locks[l], o, f, session) && ABSENT < o < t.uids && ABSENT < f < t.uids && o !in t.ops && o !in t.handles
    requires op == NewUpload(t, cfg, session, f, FenceOf(l, t.locks[l]), total) && u == UploadEntered(t, cfg, o, op, l)
    ensures Enters(t, u, o, op)
  {
    forall i | i in t.locks ensures LockEnters(t, t.locks[i], u.locks[i], o, op, i) {
      assert op.fences[0] in op.fences;
      assert Names(op.fences, i) <==> i == l;
    }
  }

  lemma UploadEnteredOk(t: Tables, u: Tables, cfg: Config, session: Id, o: Id, f: Id, l: Id, total: nat, op: Operation)
    requires IdsOk(t) && NodesOk(t) && cfg.blockSize > 0 && l in t.locks && Fresh(t, t.locks[l], o, f, session) && o < t.uids && l < t.uids
    requires Alive(t, f) || (f == o + 1 && f !in t.nodes)
    requires op == NewUpload(t, cfg, session, f, FenceOf(l, t.locks[l]), total) && u == UploadEntered(t, cfg, o, op, l)
    ensures OpOk(u, o)
  {
    if f in t.nodes {
      assert NodeOk(t, f);
    }
  }

  /** What a successful BeginUpload leaves behind. */
  ghost predicate UploadBegun(t: Tables, u: Tables, cfg: Config, session: Id, existing: Id, total: nat, o: Id) {
    && o !in t.ops && o in u.ops && u.ops[o].Upload? && |u.ops[o].fences| == 1
    && var op := u.ops[o];
    && op.file in u.policies
    && op.file == (if Alive(t, existing) then existing else o + 1)
    && (if Alive(t, existing)
        then op == Upload(existing, session, PREPARING, op.fences, PolicyOf(t, existing).revision, t.nodes[existing].blockSize,
               Current(t, existing).epoch + 1, t.nodes[existing].snapshot, total, map[], map[], false)
        else op == Upload(o + 1, session, PREPARING, op.fences, 1, cfg.blockSize, 1, ABSENT, total, map[], map[], false))
    && op.fences[0].lock in u.locks && u.locks[op.fences[0].lock].active == {o} && u.locks[op.fences[0].lock].deadline == t.clock + TRANSFER_SECONDS
    && (op.file in t.policies ==> u.policies == t.policies)
    && (op.file !in t.policies ==> u.policies == t.policies[op.file := u.policies[op.file]] && FirstPolicy(u.policies[op.file], cfg))
    && FenceHeld(u, session, op.fences[0]) && op.fences[0].whole && op.fences[0].holder == o
    && u == t.(uids := u.uids, sequence := u.sequence, ops := t.ops[o := op], locks := u.locks, policies := u.policies)
    && (forall i :: i in t.locks ==> i in u.locks && u.locks[i] == t.locks[i])
  }

  method RecordUpload(tx: Transaction, session: Id, o: Id, f: Id, l: Id, total: nat)
    requires tx.Valid() && ABSENT < o < tx.t.uids && ABSENT < f < tx.t.uids && o !in tx.t.ops && o !in tx.t.handles
    requires l in tx.t.locks && Fresh(tx.t, tx.t.locks[l], o, f, session)
    requires Alive(tx.t, f) || (f == o + 1 && f !in tx.t.nodes)
    modifies tx
    ensures tx.Kept()
    ensures tx.t == UploadEntered(old(tx.t), tx.cfg, o, NewUpload(old(tx.t), tx.cfg, session, f, FenceOf(l, old(tx.t).locks[l]), total), l)
  {
    var t := tx.t;
    var op := NewUpload(t, tx.cfg, session, f, FenceOf(l, t.locks[l]), total);
    var u := UploadEntered(t, tx.cfg, o, op, l);
    UploadEnters(t, u, tx.cfg, session, o, f, l, total, op);
    UploadEnteredOk(t, u, tx.cfg, session, o, f, l, total, op);
    EnterStep(t, u, tx.domains, o, op);
    tx.t := u;
  }

  /** room says that the quotas on uploads in progress leave room for one more. */
  method BeginUpload(tx: Transaction, session: Id, existing: Id, overwrite: bool, expected: Id, total: nat, reserved: bool, room: bool)
    returns (r: Result<Id>)
    requires tx.Valid()
    modifies tx
    ensures tx.Kept()
    ensures r.Ok? <==> room && MayUpload(old(tx.t), tx.cfg, existing, overwrite, expected, total, reserved)
    ensures r.Err? ==> tx.t == old(tx.t)
    ensures r.Ok? ==> UploadBegun(old(tx.t), tx.t, tx.cfg, session, existing, total, r.value)
  {
    var before := tx.t;
    EvolvesReflexive(before, tx.domains);
    if !room {
      return Err(LimitExceeded);
    }
    if total > tx.cfg.maxFileBytes {
      return Err(InvalidArgument);
    }
    if reserved {
      return Err(LockBusy);
    }
    if Alive(before, existing) && !overwrite {
      return Err(AlreadyExists);
    }
    if expected != if Alive(before, existing) then before.nodes[existing].snapshot else ABSENT {
      return Err(VersionConflict);
    }
    var o, f, lock := TakeFile(tx, session, existing);
    if lock.Err? || (Alive(before, existing) && PolicyOf(before, existing).state == PROMOTING) {
      tx.t := before;
      return Err(if lock.Err? then lock.reason else LockBusy);
    }
    ghost var middle := tx.t;
    RecordUpload(tx, session, o, f, lock.value, total);
    EvolvesTransitive(before, middle, tx.t);
    BegunUpload(before, middle, tx.t, tx.cfg, session, existing, o, f, lock.value, total);
    return Ok(o);
  }

  lemma BegunUpload(t: Tables, m: Tables, u: Tables, cfg: Config, session: Id, existing: Id, o: Id, f: Id, l: Id, total: nat)
    requires ConfigOk(cfg) && (Alive(t, existing) || f !in t.nodes)
    requires m == t.(uids := m.uids, sequence := m.sequence, locks := m.locks) && o !in t.ops
    requires f == (if Alive(t, existing) then existing else o + 1)
    requires forall i :: i in t.locks ==> i in m.locks && m.locks[i] == t.locks[i]
    requires l !in t.locks && l in m.locks && Fresh(m, m.locks[l], o, f, session) && (Alive(t, f) || f == o + 1)
    requires u == UploadEntered(m, cfg, o, NewUpload(m, cfg, session, f, FenceOf(l, m.locks[l]), total), l)
    ensures UploadBegun(t, u, cfg, session, existing, total, o)
  {
  }
}
