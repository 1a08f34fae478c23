/** What ends operations in bulk, removes files, raises policies and collects garbage. Collection is exact: what it
    leaves is what something can still reach, and what it retires can never be reached, recorded or located again. */
module Maintenance {
  import opened Bytes
  import opened Layout
  import opened Tables
  import opened Steps
  import opened Progress
  import opened Leases
  import opened Handles

  // ---------------------------------------------------------------- ending and releasing in bulk

  function EndedAll(t: Tables, which: set<Id>, phase: Phase): Tables {
    t.(ops := map o | o in t.ops :: if o in which && t.ops[o].phase == PREPARING then t.ops[o].(phase := phase) else t.ops[o])
  }

  method EndAll(tx: Transaction, which: set<Id>, phase: Phase)
    requires tx.Valid() && phase != PREPARING
    modifies tx
    ensures tx.Kept() && tx.t == EndedAll(old(tx.t), which, phase)
  {
    var t := tx.t;
    var u := EndedAll(t, which, phase);
    assert forall o :: o in t.ops ==> PhaseEnds(t.ops[o], u.ops[o]);
    EndStep(t, u, tx.domains);
    tx.t := u;
  }

  /** The operations that are no longer prepared. */
  function Over(t: Tables): set<Id> {
    set o | o in t.ops && t.ops[o].phase != PREPARING
  }

  function LocksLeft(t: Tables, gone: set<Id>): map<Id, Lock> {
    map i | i in t.locks && !(t.locks[i].automatic && t.locks[i].active * gone != {}) :: t.locks[i].(active := t.locks[i].active - gone)
  }

  predicate BusyWith(t: Tables, i: Id, gone: set<Id>)
    requires i in t.handles
  {
    var o := t.handles[i].busy;
    o in gone && o in t.ops && t.ops[o].Write? && t.ops[o].handle == i
  }

  function HandlesLeft(t: Tables, gone: set<Id>): map<Id, Handle> {
    map i | i in t.handles :: if BusyWith(t, i, gone) then t.handles[i].(busy := ABSENT) else t.handles[i]
  }

  /** All of these operations have left their locks, of which the automatic ones are gone, and their handles. */
  function ReleasedAll(t: Tables, gone: set<Id>): Tables {
    t.(locks := LocksLeft(t, gone), handles := HandlesLeft(t, gone))
  }

  lemma LocksLeftNext(t: Tables, gone: set<Id>, o: Id)
    requires ActivesOk(t) && o in t.ops && o !in gone
    ensures LocksLeft(t, gone + {o}) == LocksWithout(LocksLeft(t, gone), t.ops[o].fences, o)
  {
    var before, after := LocksLeft(t, gone), LocksLeft(t, gone + {o});
    var without := LocksWithout(before, t.ops[o].fences, o);
    forall i | i in t.locks
      ensures i in after <==> i in without
      ensures i in after ==> after[i] == without[i]
    {
      assert ActiveOk(t, i);
      assert o in t.locks[i].active ==> Names(t.ops[o].fences, i);
      var active := t.locks[i].active;
      assert active * (gone + {o}) == active * gone + active * {o};
      assert active * {o} == if o in active then {o} else {};
      assert active - (gone + {o}) == active - gone - {o};
      assert o !in active ==> active - gone - {o} == active - gone;
    }
  }

  lemma HandlesLeftNext(t: Tables, gone: set<Id>, o: Id)
    requires o in t.ops && o !in gone && o != ABSENT
    ensures HandlesLeft(t, gone + {o}) == HandlesWithout(HandlesLeft(t, gone), t.ops[o], o)
  {
  }

  lemma ReleasedNone(t: Tables)
    ensures ReleasedAll(t, {}) == t
  {
    assert forall i :: i in t.locks ==> t.locks[i].active * {} == {} && t.locks[i].active - {} == t.locks[i].active;
    assert LocksLeft(t, {}) == t.locks && HandlesLeft(t, {}) == t.handles;
  }

  lemma ReleasedNext(t: Tables, u: Tables, gone: set<Id>, o: Id)
    requires IdsOk(t) && ActivesOk(t) && o in t.ops && o !in gone && u == ReleasedAll(t, gone)
    ensures Released(u, o) == ReleasedAll(t, gone + {o})
  {
    LocksLeftNext(t, gone, o);
    HandlesLeftNext(t, gone, o);
  }

  /** Those of these operations that were prepared are now in this phase, and no other has changed. */
  ghost predicate EndedFor(t: Tables, u: Tables, which: set<Id>, phase: Phase) {
    && u.ops.Keys == t.ops.Keys
    && forall o {:trigger u.ops[o]} :: o in u.ops ==>
         u.ops[o] == if o in which && t.ops[o].phase == PREPARING then InPhase(t.ops[o], phase) else t.ops[o]
  }

  lemma ReleasedAllLetsGo(t: Tables, u: Tables, gone: set<Id>)
    requires u.locks == LocksLeft(t, gone) && u.handles == HandlesLeft(t, gone)
    ensures LetGo(t, u, gone) && Freed(t, u, gone)
  {
  }

  /** release_operation for each of these operations. */
  method ReleaseAll(tx: Transaction, which: set<Id>)
    requires tx.Valid() && which <= Over(tx.t)
    modifies tx
    ensures tx.Kept() && tx.t == ReleasedAll(old(tx.t), which)
  {
    ghost var t := tx.t;
    var left := which;
    ReleasedNone(t);
    EvolvesReflexive(t, tx.domains);
    assert which - left == {};
    while left != {}
      invariant left <= which && tx.Valid() && Evolves(t, tx.t) && tx.t == ReleasedAll(t, which - left)
    {
      var o :| o in left;
      ghost var u := tx.t;
      ReleasedNext(t, u, which - left, o);
      ReleaseOperation(tx, o);
      EvolvesTransitive(t, u, tx.t);
      assert which - left + {o} == which - (left - {o});
      left := left - {o};
    }
    assert which - left == which;
  }

  // ---------------------------------------------------------------- removal

  function OpsOn(t: Tables, f: Id): set<Id> {
    set o | o in t.ops && t.ops[o].file == f
  }

  /** The file is gone from the tree, and what was being prepared for it is aborted. */
  function Unlinked(t: Tables, f: Id): Tables
    requires f in t.nodes
  {
    Removed(EndedAll(t, OpsOn(t, f), ABORTED), f)
  }

  method Unlink(tx: Transaction, f: Id)
    requires tx.Valid() && Alive(tx.t, f)
    modifies tx
    ensures tx.Kept() && tx.t == Unlinked(old(tx.t), f)
  {
    ghost var t := tx.t;
    EndAll(tx, OpsOn(tx.t, f), ABORTED);
    var u := tx.t;
    RemoveStep(u, Removed(u, f), tx.domains, f);
    tx.t := Removed(u, f);
    EvolvesTransitive(t, u, tx.t);
  }

  /** Removing a file aborts what is being prepared for it, and lets every operation that is over go. Snapshots and
      blocks stay for the handles that are still open. */
  method Remove(tx: Transaction, f: Id) returns (r: Result<()>)
    requires tx.Valid()
    modifies tx
    ensures tx.Kept()
    ensures r.Ok? <==> Alive(old(tx.t), f)
    ensures r.Err? ==> tx.t == old(tx.t)
    ensures r.Ok? ==> tx.t == ReleasedAll(Unlinked(old(tx.t), f), Over(Unlinked(old(tx.t), f)))
    ensures r.Ok? ==> FileGone(old(tx.t), tx.t, f)
  {
    var t := tx.t;
    EvolvesReflexive(t, tx.domains);
    if !Alive(t, f) {
      return Err(NotFound);
    }
    Unlink(tx, f);
    ghost var u := tx.t;
    ReleaseAll(tx, Over(tx.t));
    EvolvesTransitive(t, u, tx.t);
    UnlinkedGone(t, tx.t, f);
    return Ok(());
  }

  /** The file is no longer alive; what was prepared for it is aborted; every operation that is over has let go of its
      locks and its handle. Snapshots, blocks and everything else stay. */
  ghost predicate FileGone(t: Tables, u: Tables, f: Id) {
    && f in t.nodes && u.nodes == t.nodes[f := Node(t.nodes[f].snapshot, false, t.nodes[f].revision + 1, t.nodes[f].blockSize)]
    && u.ops.Keys == t.ops.Keys
    && (forall o {:trigger u.ops[o]} :: o in u.ops ==>
          u.ops[o] == if t.ops[o].file == f && t.ops[o].phase == PREPARING then InPhase(t.ops[o], ABORTED) else t.ops[o])
    && (var gone := set o | o in u.ops && u.ops[o].phase != PREPARING; LetGo(t, u, gone) && Freed(t, u, gone))
    && u == t.(nodes := u.nodes, ops := u.ops, locks := u.locks, handles := u.handles)
  }

  lemma UnlinkedGone(t: Tables, u: Tables, f: Id)
    requires f in t.nodes && u == ReleasedAll(Unlinked(t, f), Over(Unlinked(t, f)))
    ensures FileGone(t, u, f)
  {
    var v := Unlinked(t, f);
    var gone := set o | o in u.ops && u.ops[o].phase != PREPARING;
    assert gone == Over(v);
    ReleasedAllLetsGo(v, u, gone);
    UnlinkedSame(t, v, u, f, gone);
  }

  lemma UnlinkedSame(t: Tables, v: Tables, u: Tables, f: Id, gone: set<Id>)
    requires f in t.nodes && v == Unlinked(t, f) && LetGo(v, u, gone) && Freed(v, u, gone)
    ensures LetGo(t, u, gone) && Freed(t, u, gone)
  {
    assert forall o, i :: IsWriteOf(v, o, i) <==> IsWriteOf(t, o, i);
  }

  // ---------------------------------------------------------------- policy and copies

  function PromotedPolicy(p: Policy): Policy { Terms(3, 2, p.revision + 1, PROMOTING, p.first) }

  function WithPolicy(t: Tables, f: Id, p: Policy): Tables { t.(policies := t.policies[f := p]) }

  /** A promotion raises the policy to three copies, two durable, under a new revision; what was prepared under
      the old one is aborted and released. Promoting again changes nothing unless the promotion got stuck. */
  method Promote(tx: Transaction, f: Id, expected: nat) returns (r: Result<nat>)
    requires tx.Valid()
    modifies tx
    ensures tx.Kept()
    ensures r.Ok? <==> Alive(old(tx.t), f) && expected == PolicyOf(old(tx.t), f).revision
    ensures r.Err? ==> tx.t == old(tx.t)
    ensures r.Ok? ==> r.value == PolicyOf(tx.t, f).revision
    ensures r.Ok? ==>
      var t, p := old(tx.t), PolicyOf(old(tx.t), f);
      if p.r == 3 && p.state != PROMOTION_BLOCKED then tx.t == t
      else var u := EndedAll(WithPolicy(t, f, PromotedPolicy(p)), OpsOn(t, f), ABORTED); tx.t == ReleasedAll(u, OpsOn(t, f) - Over(t))
    ensures r.Ok? && !(PolicyOf(old(tx.t), f).r == 3 && PolicyOf(old(tx.t), f).state != PROMOTION_BLOCKED) ==> PolicyRaised(old(tx.t), tx.t, f)
  {
    var t := tx.t;
    EvolvesReflexive(t, tx.domains);
    if !Alive(t, f) {
      return Err(NotFound);
    }
    var p := PolicyOf(t, f);
    if expected != p.revision {
      return Err(VersionConflict);
    }
    if p.r == 3 && p.state != PROMOTION_BLOCKED {
      return Ok(p.revision);
    }
    assert NodeOk(t, f);
    var raised := WithPolicy(t, f, PromotedPolicy(p));
    PolicyStep(t, raised, tx.domains, f, PromotedPolicy(p));
    tx.t := raised;
    EndAll(tx, OpsOn(t, f), ABORTED);
    ghost var u := tx.t;
    EvolvesTransitive(t, raised, u);
    ReleaseAll(tx, OpsOn(t, f) - Over(t));
    EvolvesTransitive(t, u, tx.t);
    PromotedRaised(t, tx.t, f);
    return Ok(p.revision + 1);
  }

  /** Three copies, two of them durable, under the next revision; what was prepared for the file is aborted and has let
      go of its locks and its handle. Nothing else has changed. */
  ghost predicate PolicyRaised(t: Tables, u: Tables, f: Id) {
    && var p := PolicyOf(t, f);
    && u.policies == t.policies[f := Terms(3, 2, p.revision + 1, PROMOTING, p.first)]
    && u.ops.Keys == t.ops.Keys
    && (forall o {:trigger u.ops[o]} :: o in u.ops ==>
          u.ops[o] == if t.ops[o].file == f && t.ops[o].phase == PREPARING then InPhase(t.ops[o], ABORTED) else t.ops[o])
    && (var gone := set o | o in t.ops && t.ops[o].file == f && t.ops[o].phase == PREPARING; LetGo(t, u, gone) && Freed(t, u, gone))
    && u == t.(policies := u.policies, ops := u.ops, locks := u.locks, handles := u.handles)
  }

  lemma PromotedRaised(t: Tables, u: Tables, f: Id)
    requires u == ReleasedAll(EndedAll(WithPolicy(t, f, PromotedPolicy(PolicyOf(t, f))), OpsOn(t, f), ABORTED), OpsOn(t, f) - Over(t))
    ensures PolicyRaised(t, u, f)
  {
    var v := EndedAll(WithPolicy(t, f, PromotedPolicy(PolicyOf(t, f))), OpsOn(t, f), ABORTED);
    PromotedGone(t, v, u, f);
  }

  lemma PromotedGone(t: Tables, v: Tables, u: Tables, f: Id)
    requires v == EndedAll(WithPolicy(t, f, PromotedPolicy(PolicyOf(t, f))), OpsOn(t, f), ABORTED) && u == ReleasedAll(v, OpsOn(t, f) - Over(t))
    ensures var gone := set o | o in t.ops && t.ops[o].file == f && t.ops[o].phase == PREPARING; LetGo(t, u, gone) && Freed(t, u, gone)
  {
    var gone := set o | o in t.ops && t.ops[o].file == f && t.ops[o].phase == PREPARING;
    assert gone == OpsOn(t, f) - Over(t);
    ReleasedAllLetsGo(v, u, gone);
    assert forall o, i :: IsWriteOf(v, o, i) <==> IsWriteOf(t, o, i);
    SameGone(t, v, u, gone);
  }

  /** Who lets go of what does not depend on phases and policies. */
  lemma SameGone(t: Tables, v: Tables, u: Tables, gone: set<Id>)
    requires v.locks == t.locks && v.handles == t.handles && LetGo(v, u, gone) && Freed(v, u, gone)
    requires forall o, i :: IsWriteOf(v, o, i) <==> IsWriteOf(t, o, i)
    ensures LetGo(t, u, gone) && Freed(t, u, gone)
  {
  }

  /** A promotion is over once every useful block of the file has its copies, or its time is up. */
  method SettlePromotion(tx: Transaction, f: Id, reached: bool, late: bool)
    requires tx.Valid() && f in tx.t.policies && tx.t.policies[f].state == PROMOTING
    modifies tx
    ensures tx.Kept()
    ensures var p := old(tx.t).policies[f].(state := if reached then ACTIVE else if late then PROMOTION_BLOCKED else PROMOTING);
      tx.t == old(tx.t).(policies := old(tx.t).policies[f := p])
  {
    var t := tx.t;
    var p := t.policies[f].(state := if reached then ACTIVE else if late then PROMOTION_BLOCKED else PROMOTING);
    PolicyStep(t, WithPolicy(t, f, p), tx.domains, f, p);
    tx.t := WithPolicy(t, f, p);
  }

  /** A finished or recovered copy is recorded, unless its block is unknown or retired. */
  method ConfirmCopy(tx: Transaction, b: Id, node: Id) returns (r: Result<()>)
    requires tx.Valid()
    modifies tx
    ensures tx.Kept()
    ensures r.Ok? <==> b in old(tx.t).blocks && b !in old(tx.t).retired
    ensures r.Err? ==> tx.t == old(tx.t)
    ensures r.Ok? ==> tx.t == Stored(old(tx.t), old(tx.t).blocks[b], node) && Holds(old(tx.t), tx.t, old(tx.t).blocks[b], node)
  {
    var t := tx.t;
    EvolvesReflexive(t, tx.domains);
    if b !in t.blocks {
      return Err(ChecksumMismatch);
    }
    if b in t.retired {
      return Err(VersionConflict);
    }
    var u := Stored(t, t.blocks[b], node);
    StoredHolds(t, t.blocks[b], node);
    StoreStep(t, u, tx.domains, t.blocks[b], node);
    tx.t := u;
    return Ok(());
  }

  // ---------------------------------------------------------------- garbage

  function PinnedSnapshots(t: Tables): set<Id> {
    (set f | f in t.nodes && t.nodes[f].alive :: t.nodes[f].snapshot) +
    (set i | i in t.handles && HandleLive(t, t.handles[i]) :: t.handles[i].snapshot)
  }

  lemma PinnedIs(t: Tables, s: Id)
    ensures Pinned(t, s) <==> s in PinnedSnapshots(t)
  {
  }

  /** The snapshots that stay: those a live file or a live handle pins, and those retained for other reasons. */
  function Staying(t: Tables, extra: set<Id>): map<Id, Snapshot> {
    map s | s in t.snapshots && s in PinnedSnapshots(t) + extra :: t.snapshots[s]
  }

  /** b is in a snapshot that stays, reserved by a prepared operation, or in use by a copy task. */
  predicate Needed(t: Tables, kept: map<Id, Snapshot>, tasks: set<Id>, b: Id) {
    || b in tasks
    || (exists s :: s in kept && b in Versions(kept[s].blocks))
    || (exists o :: o in t.ops && t.ops[o].phase == PREPARING && b in Reserved(t.ops[o]))
  }

  /** The loop over snapshots: keep or delete, and note the blocks of those kept. */
  method SweepSnapshots(t: Tables, extra: set<Id>, tasks: set<Id>) returns (kept: map<Id, Snapshot>, retained: set<Id>)
    ensures kept == Staying(t, extra)
    ensures forall b :: b in retained <==> b in tasks || exists s :: s in kept && b in Versions(kept[s].blocks)
  {
    var pins, left := PinnedSnapshots(t) + extra, t.snapshots.Keys;
    kept, retained := map[], tasks;
    while left != {}
      invariant left <= t.snapshots.Keys && kept.Keys <= t.snapshots.Keys
      invariant forall s :: s in kept <==> s in t.snapshots && s !in left && s in pins
      invariant forall s :: s in kept ==> kept[s] == t.snapshots[s]
      invariant forall b :: b in retained <==> b in tasks || exists s :: s in kept && b in Versions(kept[s].blocks)
    {
      var s :| s in left;
      left := left - {s};
      if s in pins {
        ghost var before := kept;
        kept, retained := kept[s := t.snapshots[s]], retained + Versions(t.snapshots[s].blocks);
        forall b ensures b in retained <==> b in tasks || exists x :: x in kept && b in Versions(kept[x].blocks) {
          if x :| x in before && b in Versions(before[x].blocks) {
            assert x in kept && b in Versions(kept[x].blocks);
          }
          assert b in Versions(t.snapshots[s].blocks) ==> s in kept && b in Versions(kept[s].blocks);
        }
      }
    }
  }

  /** The loop over operations: what a prepared one has been given stays. */
  method SweepReserved(t: Tables, before: set<Id>) returns (retained: set<Id>)
    ensures forall b :: b in retained <==> b in before || exists o :: o in t.ops && t.ops[o].phase == PREPARING && b in Reserved(t.ops[o])
  {
    var left := t.ops.Keys;
    retained := before;
    while left != {}
      invariant left <= t.ops.Keys
      invariant forall b :: b in retained <==>
        b in before || exists o :: o in t.ops && o !in left && t.ops[o].phase == PREPARING && b in Reserved(t.ops[o])
    {
      var o :| o in left;
      ghost var was := left;
      left := left - {o};
      if t.ops[o].phase == PREPARING {
        retained := retained + Reserved(t.ops[o]);
      }
    }
  }

  /** Snapshots that nothing pins go, then the blocks that nothing needs. */
  function Swept(t: Tables, extra: set<Id>, tasks: set<Id>): Tables {
    Retired(t.(snapshots := Staying(t, extra)), set b | b in t.blocks && !Needed(t, Staying(t, extra), tasks, b))
  }

  lemma SweptStep(t: Tables, u: Tables, v: Tables, domains: map<Id, Id>, extra: set<Id>, tasks: set<Id>, gone: set<Id>)
    requires Inv(t, domains) && u == t.(snapshots := Staying(t, extra)) && v == Retired(u, gone)
    requires gone == set b | b in t.blocks && !Needed(t, Staying(t, extra), tasks, b)
    ensures Inv(v, domains) && Evolves(t, v)
  {
    forall s | s in t.snapshots && Pinned(t, s) ensures s in u.snapshots {
      PinnedIs(t, s);
    }
    DropStep(t, u, domains);
    forall b | b in gone ensures Unreachable(u, b) {
      forall s | s in u.snapshots ensures b !in Versions(u.snapshots[s].blocks) {
      }
    }
    RetireStep(u, v, domains, gone);
    EvolvesTransitive(t, u, v);
  }

  method Sweep(tx: Transaction, extra: set<Id>, tasks: set<Id>)
    requires tx.Valid()
    modifies tx
    ensures tx.Kept() && tx.t == Swept(old(tx.t), extra, tasks)
  {
    var t := tx.t;
    var kept, retained := SweepSnapshots(t, extra, tasks);
    retained := SweepReserved(t, retained);
    var gone := set b | b in t.blocks && b !in retained;
    assert gone == set b | b in t.blocks && !Needed(t, Staying(t, extra), tasks, b);
    var u := t.(snapshots := kept);
    var v := Retired(u, gone);
    SweptStep(t, u, v, tx.domains, extra, tasks, gone);
    tx.t := v;
  }

  // ---------------------------------------------------------------- collect

  predicate LocksHold(t: Tables, op: Operation) {
    forall f :: f in op.fences ==> f.lock in t.locks && LockLive(t, t.locks[f.lock])
  }

  predicate Unexpired(t: Tables, h: Handle) { h.epoch == t.epoch && h.deadline > t.clock }

  /** Prepared writes whose handle or one of whose locks has run out. */
  function Lost(t: Tables): set<Id> {
    set o | o in t.ops && t.ops[o].Write? && t.ops[o].phase == PREPARING &&
      !(t.ops[o].handle in t.handles && Unexpired(t, t.handles[t.ops[o].handle]) && LocksHold(t, t.ops[o]))
  }

  /** operation_live() of a prepared operation; lapsed are the uploads past their wall-clock deadline. */
  predicate OperationLive(t: Tables, o: Id, lapsed: set<Id>)
    requires o in t.ops
  {
    var op := t.ops[o];
    if op.Write? then op.handle in t.handles && HandleLive(t, t.handles[op.handle]) && LocksHold(t, op) else o !in lapsed
  }

  function Late(t: Tables, lapsed: set<Id>): set<Id> {
    set o | o in t.ops && t.ops[o].phase == PREPARING && !OperationLive(t, o, lapsed)
  }

  function DeadClosed(t: Tables): Tables {
    t.(handles := map i | i in t.handles :: if Unexpired(t, t.handles[i]) then t.handles[i] else t.handles[i].(closed := true))
  }

  /** Lost writes expire, whatever is over lets go of its locks and handle, dead handles close, late operations expire. */
  method ExpireAll(tx: Transaction, lapsed: set<Id>)
    requires tx.Valid()
    modifies tx
    ensures tx.Kept()
    ensures tx.t == Expired(old(tx.t), lapsed)
  {
    ghost var t0 := tx.t;
    EndAll(tx, Lost(tx.t), EXPIRED);
    ghost var t1 := tx.t;
    ReleaseAll(tx, Over(tx.t));
    ghost var t2 := tx.t;
    EvolvesTransitive(t0, t1, t2);
    CloseDead(tx);
    ghost var t3 := tx.t;
    EvolvesTransitive(t0, t2, t3);
    EndAll(tx, Late(tx.t, lapsed), EXPIRED);
    EvolvesTransitive(t0, t3, tx.t);
  }

  function Expired(t: Tables, lapsed: set<Id>): Tables {
    var ended := EndedAll(t, Lost(t), EXPIRED);
    var closed := DeadClosed(ReleasedAll(ended, Over(ended)));
    EndedAll(closed, Late(closed, lapsed), EXPIRED)
  }

  method CloseDead(tx: Transaction)
    requires tx.Valid()
    modifies tx
    ensures tx.Kept() && tx.t == DeadClosed(old(tx.t))
  {
    var u := DeadClosed(tx.t);
    LeaseStepOn(tx.t, u, tx.domains);
    tx.t := u;
  }

  /** collect(): extra are snapshots retained for other reasons, tasks the blocks in use by copy tasks. */
  method Collect(tx: Transaction, lapsed: set<Id>, extra: set<Id>, tasks: set<Id>)
    requires tx.Valid()
    modifies tx
    ensures tx.Kept()
    ensures tx.t == Swept(Expired(old(tx.t), lapsed), extra, tasks)
    ensures forall o :: o in old(tx.t).ops ==> OpCollected(old(tx.t), tx.t, lapsed, o)
    ensures forall i :: i in old(tx.t).handles ==> HandleCollected(old(tx.t), tx.t, i)
    ensures SnapshotsCollected(old(tx.t), tx.t, extra) && BlocksCollected(old(tx.t), tx.t, tasks)
  {
    ghost var t := tx.t;
    ExpireAll(tx, lapsed);
    ghost var u := tx.t;
    Sweep(tx, extra, tasks);
    EvolvesTransitive(t, u, tx.t);
    CollectedAll(t, u, tx.t, tx.domains, lapsed, extra, tasks);
  }

  // ---------------------------------------------------------------- what a collection does, and what it does not

  /** The versions of the blocks that an operation has been given. */
  ghost predicate Given(op: Operation, b: Id) {
    if op.Write? then exists j :: 0 <= j < |op.parts| && op.parts[j].replacement == b
    else exists k :: k in op.allocations && op.allocations[k].version == b
  }

  /** A prepared operation that is live stays as it is, with every lock that lists it, its handle and its blocks; one
      that is not expires; one that is over stays as it is. */
  ghost predicate OpCollected(t: Tables, v: Tables, lapsed: set<Id>, o: Id)
    requires o in t.ops
  {
    && o in v.ops
    && (t.ops[o].phase != PREPARING ==> v.ops[o] == t.ops[o])
    && (t.ops[o].phase == PREPARING && !OperationLive(t, o, lapsed) ==> v.ops[o] == InPhase(t.ops[o], EXPIRED))
    && (t.ops[o].phase == PREPARING && OperationLive(t, o, lapsed) ==>
         && v.ops[o] == t.ops[o]
         && (forall l :: l in t.locks && o in t.locks[l].active ==> l in v.locks && v.locks[l] == t.locks[l])
         && (t.ops[o].Write? ==> t.ops[o].handle in v.handles && v.handles[t.ops[o].handle] == t.handles[t.ops[o].handle])
         && (forall b :: b in t.blocks && Given(t.ops[o], b) ==> b in v.blocks && v.blocks[b] == t.blocks[b]))
  }

  /** A live handle stays as it is, but that it is free if its write is over, and so does its snapshot with all of its
      blocks; one that has run out is closed. */
  ghost predicate HandleCollected(t: Tables, v: Tables, i: Id)
    requires i in t.handles
  {
    && i in v.handles
    && var h, h' := t.handles[i], v.handles[i];
    && h' == h.(busy := h'.busy, closed := h'.closed)
    && (h'.busy == h.busy || (h'.busy == ABSENT && IsWriteOf(v, h.busy, i) && v.ops[h.busy].phase != PREPARING))
    && (h'.closed <==> h.closed || !(h.epoch == t.epoch && h.deadline > t.clock))
    && (HandleLive(t, h) && h.snapshot in t.snapshots ==>
         && h.snapshot in v.snapshots && v.snapshots[h.snapshot] == t.snapshots[h.snapshot]
         && forall b :: b in t.snapshots[h.snapshot].blocks && b.version in t.blocks ==> b.version in v.blocks)
  }

  /** The snapshots left are those that a live file shows, that a live handle stands for, or that are retained. */
  ghost predicate SnapshotsCollected(t: Tables, v: Tables, extra: set<Id>) {
    && v.nodes == t.nodes
    && (forall s :: s in v.snapshots ==> s in t.snapshots && v.snapshots[s] == t.snapshots[s])
    && (forall s :: s in t.snapshots ==>
          (s in v.snapshots <==>
            || s in extra
            || (exists f :: f in t.nodes && t.nodes[f].alive && t.nodes[f].snapshot == s)
            || (exists i :: i in t.handles && HandleLive(t, t.handles[i]) && t.handles[i].snapshot == s)))
  }

  /** The blocks left are those of a snapshot that is left, those given to an operation still prepared, and those in use
      by a copy task; the others are retired, with what was known of where they are. */
  ghost predicate BlocksCollected(t: Tables, v: Tables, tasks: set<Id>) {
    && (forall b :: b in v.blocks ==> b in t.blocks && v.blocks[b] == t.blocks[b])
    && (forall b :: b in t.blocks ==>
          (b in v.blocks <==>
            || b in tasks
            || (exists s, x :: s in v.snapshots && x in v.snapshots[s].blocks && x.version == b)
            || (exists o :: o in v.ops && v.ops[o].phase == PREPARING && Given(v.ops[o], b))))
    && (forall b :: b in v.retired <==> b in t.retired || (b in t.blocks && b !in v.blocks))
    && (forall b :: b in t.locations ==> (b in v.locations <==> b !in t.blocks || b in v.blocks))
  }

  lemma VersionsIs(blocks: seq<BlockRef>, b: Id)
    ensures b in Versions(blocks) <==> exists x :: x in blocks && x.version == b
  {
  }

  lemma ReservedIs(op: Operation, b: Id)
    ensures b in Reserved(op) <==> Given(op, b)
  {
    if op.Write? {
      if p :| p in op.parts && p.replacement == b {
        var j :| 0 <= j < |op.parts| && op.parts[j] == p;
        assert op.parts[j].replacement == b;
      }
    }
  }

  /** A lock lists at most one operation: two writes would both occupy its handle, an upload is its holder. */
  lemma OneActive(t: Tables, domains: map<Id, Id>, l: Id, o: Id, q: Id)
    requires Inv(t, domains) && l in t.locks && o in t.locks[l].active && q in t.locks[l].active
    ensures o == q
  {
    assert ActiveOk(t, l);
  }

  /** Up to the sweep: what expires is exactly what was not live. */
  lemma ExpiredOp(t: Tables, u: Tables, domains: map<Id, Id>, lapsed: set<Id>, o: Id)
    requires Inv(t, domains) && u == Expired(t, lapsed) && o in t.ops
    ensures o in u.ops
    ensures u.ops[o] == if t.ops[o].phase == PREPARING && !OperationLive(t, o, lapsed) then InPhase(t.ops[o], EXPIRED) else t.ops[o]
  {
    assert OpOk(t, o);
    var ended := EndedAll(t, Lost(t), EXPIRED);
    var closed := DeadClosed(ReleasedAll(ended, Over(ended)));
    if t.ops[o].phase == PREPARING && OperationLive(t, o, lapsed) {
      assert o !in Over(ended);
      LiveLocksStay(t, closed, domains, lapsed, o);
      assert OperationLive(closed, o, lapsed);
    }
  }

  /** A live operation keeps its locks and its handle. */
  lemma LiveLocksStay(t: Tables, closed: Tables, domains: map<Id, Id>, lapsed: set<Id>, o: Id)
    requires Inv(t, domains) && o in t.ops && t.ops[o].phase == PREPARING && OperationLive(t, o, lapsed)
    requires var ended := EndedAll(t, Lost(t), EXPIRED); closed == DeadClosed(ReleasedAll(ended, Over(ended)))
    ensures forall l :: l in t.locks && o in t.locks[l].active ==> l in closed.locks && closed.locks[l] == t.locks[l]
    ensures t.ops[o].Write? ==>
      t.ops[o].handle in closed.handles && closed.handles[t.ops[o].handle] == t.handles[t.ops[o].handle] && LocksHold(closed, t.ops[o])
  {
    var ended := EndedAll(t, Lost(t), EXPIRED);
    assert OpOk(t, o) && o !in Lost(t) && o !in Over(ended);
    forall l | l in t.locks && o in t.locks[l].active ensures t.locks[l].active * Over(ended) == {} && t.locks[l].active - Over(ended) == t.locks[l].active {
      forall q | q in t.locks[l].active ensures q !in Over(ended) {
        OneActive(t, domains, l, o, q);
      }
    }
  }

  lemma ExpiredHandle(t: Tables, u: Tables, lapsed: set<Id>, i: Id)
    requires u == Expired(t, lapsed) && i in t.handles
    ensures i in u.handles
    ensures var h, h' := t.handles[i], u.handles[i];
      && h' == h.(busy := h'.busy, closed := h'.closed)
      && (h'.busy == h.busy || (h'.busy == ABSENT && IsWriteOf(u, h.busy, i) && u.ops[h.busy].phase != PREPARING))
      && (h'.closed <==> h.closed || !(h.epoch == t.epoch && h.deadline > t.clock))
  {
  }

  lemma SweptOp(t: Tables, u: Tables, v: Tables, domains: map<Id, Id>, lapsed: set<Id>, extra: set<Id>, tasks: set<Id>, o: Id)
    requires Inv(t, domains) && u == Expired(t, lapsed) && v == Swept(u, extra, tasks) && o in t.ops
    ensures OpCollected(t, v, lapsed, o)
  {
    ExpiredOp(t, u, domains, lapsed, o);
    ExpiredFrame(t, u, lapsed, o);
    if t.ops[o].phase == PREPARING && OperationLive(t, o, lapsed) {
      var ended := EndedAll(t, Lost(t), EXPIRED);
      LiveLocksStay(t, DeadClosed(ReleasedAll(ended, Over(ended))), domains, lapsed, o);
      forall b | b in t.blocks && Given(t.ops[o], b) ensures b in v.blocks && v.blocks[b] == t.blocks[b] {
        ReservedIs(t.ops[o], b);
        assert Needed(u, Staying(u, extra), tasks, b);
      }
    }
  }

  lemma SweptHandle(t: Tables, u: Tables, v: Tables, domains: map<Id, Id>, lapsed: set<Id>, extra: set<Id>, tasks: set<Id>, i: Id)
    requires u == Expired(t, lapsed) && v == Swept(u, extra, tasks) && i in t.handles
    ensures HandleCollected(t, v, i)
  {
    ExpiredHandle(t, u, lapsed, i);
    ExpiredFrame(t, u, lapsed, 0);
    var h := t.handles[i];
    if HandleLive(t, h) && h.snapshot in t.snapshots {
      assert HandleLive(u, u.handles[i]);
      assert h.snapshot in PinnedSnapshots(u) && h.snapshot in Staying(u, extra);
      forall b | b in t.snapshots[h.snapshot].blocks && b.version in t.blocks ensures b.version in v.blocks {
        VersionsIs(t.snapshots[h.snapshot].blocks, b.version);
        assert Needed(u, Staying(u, extra), tasks, b.version);
      }
    }
  }

  lemma SweptSnapshots(t: Tables, u: Tables, v: Tables, lapsed: set<Id>, extra: set<Id>, tasks: set<Id>)
    requires u == Expired(t, lapsed) && v == Swept(u, extra, tasks)
    ensures SnapshotsCollected(t, v, extra)
  {
    ExpiredFrame(t, u, lapsed, 0);
    forall i | i in t.handles ensures i in u.handles && u.handles[i].snapshot == t.handles[i].snapshot && (HandleLive(u, u.handles[i]) <==> HandleLive(t, t.handles[i])) {
      ExpiredHandle(t, u, lapsed, i);
    }
    assert u.handles.Keys == t.handles.Keys;
    assert v.snapshots == Staying(u, extra);
  }

  lemma SweptBlocks(t: Tables, u: Tables, v: Tables, lapsed: set<Id>, extra: set<Id>, tasks: set<Id>)
    requires u == Expired(t, lapsed) && v == Swept(u, extra, tasks)
    ensures BlocksCollected(t, v, tasks)
  {
    ExpiredFrame(t, u, lapsed, 0);
    assert v.snapshots == Staying(u, extra) && v.ops == u.ops;
    forall b | b in t.blocks ensures b in v.blocks <==>
            || b in tasks
            || (exists s, x :: s in v.snapshots && x in v.snapshots[s].blocks && x.version == b)
            || (exists o :: o in v.ops && v.ops[o].phase == PREPARING && Given(v.ops[o], b))
    {
      NeededIs(u, v, extra, tasks, b);
      KeptBlock(u, v, extra, tasks, b);
    }
    RetiredBlocks(u, v, extra, tasks);
  }

  lemma KeptBlock(u: Tables, v: Tables, extra: set<Id>, tasks: set<Id>, b: Id)
    requires v == Swept(u, extra, tasks) && b in u.blocks
    ensures b in v.blocks <==> Needed(u, Staying(u, extra), tasks, b)
  {
  }

  lemma RetiredBlocks(u: Tables, v: Tables, extra: set<Id>, tasks: set<Id>)
    requires v == Swept(u, extra, tasks)
    ensures forall b :: b in v.blocks ==> b in u.blocks && v.blocks[b] == u.blocks[b]
    ensures forall b :: b in v.retired <==> b in u.retired || (b in u.blocks && b !in v.blocks)
    ensures forall b :: b in u.locations ==> (b in v.locations <==> b !in u.blocks || b in v.blocks)
  {
  }

  lemma NeededIs(u: Tables, v: Tables, extra: set<Id>, tasks: set<Id>, b: Id)
    requires v.snapshots == Staying(u, extra) && v.ops == u.ops
    ensures Needed(u, Staying(u, extra), tasks, b) <==>
            || b in tasks
            || (exists s, x :: s in v.snapshots && x in v.snapshots[s].blocks && x.version == b)
            || (exists o :: o in v.ops && v.ops[o].phase == PREPARING && Given(v.ops[o], b))
  {
    forall s | s in v.snapshots ensures b in Versions(v.snapshots[s].blocks) <==> exists x :: x in v.snapshots[s].blocks && x.version == b {
      VersionsIs(v.snapshots[s].blocks, b);
    }
    forall o | o in v.ops ensures b in Reserved(v.ops[o]) <==> Given(v.ops[o], b) {
      ReservedIs(v.ops[o], b);
    }
  }

  lemma CollectedAll(t: Tables, u: Tables, v: Tables, domains: map<Id, Id>, lapsed: set<Id>, extra: set<Id>, tasks: set<Id>)
    requires Inv(t, domains) && u == Expired(t, lapsed) && v == Swept(u, extra, tasks)
    ensures forall o :: o in t.ops ==> OpCollected(t, v, lapsed, o)
    ensures forall i :: i in t.handles ==> HandleCollected(t, v, i)
    ensures SnapshotsCollected(t, v, extra) && BlocksCollected(t, v, tasks)
  {
    forall o | o in t.ops ensures OpCollected(t, v, lapsed, o) {
      SweptOp(t, u, v, domains, lapsed, extra, tasks, o);
    }
    forall i | i in t.handles ensures HandleCollected(t, v, i) {
      SweptHandle(t, u, v, domains, lapsed, extra, tasks, i);
    }
    SweptSnapshots(t, u, v, lapsed, extra, tasks);
    SweptBlocks(t, u, v, lapsed, extra, tasks);
  }

  /** After a collection every operation still prepared is live, the snapshots left are exactly the pinned and the
      retained ones, and the blocks retired are exactly those that none of these, no prepared operation and no
      copy task needs. */
  lemma CollectIsExact(t: Tables, u: Tables, v: Tables, lapsed: set<Id>, extra: set<Id>, tasks: set<Id>, s: Id, b: Id, o: Id)
    requires u == Expired(t, lapsed) && v == Swept(u, extra, tasks)
    ensures o in v.ops && v.ops[o].phase == PREPARING ==> OperationLive(v, o, lapsed) && o in t.ops && v.ops[o] == t.ops[o]
    ensures v.snapshots.Keys <= t.snapshots.Keys
    ensures s in t.snapshots ==> (s in v.snapshots <==> Pinned(v, s) || s in extra)
    ensures s in v.snapshots ==> v.snapshots[s] == t.snapshots[s]
    ensures b in t.blocks ==> (b in v.blocks <==> Needed(v, v.snapshots, tasks, b))
    ensures b in t.blocks && b !in v.blocks ==> b in v.retired
    ensures v.nodes == t.nodes
  {
    ExpiredFrame(t, u, lapsed, o);
    PinnedIs(u, s);
    assert PinnedSnapshots(v) == PinnedSnapshots(u);
    PinnedIs(v, s);
    assert v.snapshots == Staying(u, extra);
    assert Needed(v, v.snapshots, tasks, b) <==> Needed(u, Staying(u, extra), tasks, b);
  }

  lemma ExpiredFrame(t: Tables, u: Tables, lapsed: set<Id>, o: Id)
    requires u == Expired(t, lapsed)
    ensures u == t.(ops := u.ops, locks := u.locks, handles := u.handles) && u.ops.Keys == t.ops.Keys
    ensures o in u.ops && u.ops[o].phase == PREPARING ==> OperationLive(u, o, lapsed) && u.ops[o] == t.ops[o]
  {
  }
}
