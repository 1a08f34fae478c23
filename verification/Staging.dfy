/** Staging an upload: blocks are allocated under announced sizes and digests, stored and listed in pages, until the
    manifest is sealed. An upload that may go on holds its whole file, so no page of it can go stale. */
module Staging {
  import opened Bytes
  import opened Layout
  import opened Tables
  import opened Steps
  import opened Progress
  import opened Leases
  import opened Handles
  import opened Uploads
  import opened Manifest

  // ---------------------------------------------------------------- the operation is still ours

  predicate OwnUpload(t: Tables, session: Id, o: Id) {
    o in t.ops && t.ops[o].Upload? && t.ops[o].session == session
  }

  /** The file still shows the snapshot that the upload is to replace. */
  predicate BaseStands(t: Tables, op: Operation)
    requires op.Upload?
  {
    op.base != ABSENT ==> Alive(t, op.file) && t.nodes[op.file].snapshot == op.base
  }

  /** operation(): why an upload cannot go on; expired says that its wall-clock deadline has passed. */
  function UploadFault(t: Tables, session: Id, o: Id, expired: bool): (r: Option<Reason>)
    ensures r == None <==>
      (OwnUpload(t, session, o) && t.ops[o].phase == PREPARING && !expired && BaseStands(t, t.ops[o])
       && (t.ops[o].fences != [] ==> FenceHeld(t, session, t.ops[o].fences[0])))
  {
    if !OwnUpload(t, session, o) then
      Some(PermissionDenied)
    else
      var op := t.ops[o];
      if op.phase != PREPARING || expired then Some(OperationExpired)
      else if !BaseStands(t, op) then Some(VersionConflict)
      else if op.fences != [] then FenceFault(t, session, op.fences[0])
      else None
  }

  /** An upload that may go on holds its whole file. */
  lemma HeldUpload(t: Tables, domains: map<Id, Id>, session: Id, o: Id)
    requires Inv(t, domains) && UploadFault(t, session, o, false) == None
    ensures Staged(t.ops[o]) && |t.ops[o].fences| == 1
    ensures var f := t.ops[o].fences[0];
      f.whole && f.holder == o && f.lock in t.locks && LockLive(t, t.locks[f.lock]) && t.locks[f.lock].file == t.ops[o].file && t.locks[f.lock].whole
  {
    assert OpOk(t, o);
    UploadStaged(t, o);
    assert FenceHeld(t, session, t.ops[o].fences[0]);
  }

  // ---------------------------------------------------------------- AllocateBlocks

  /** What the client announces of a block: where it goes, how long it is and its digest. */
  datatype Announced = Announced(index: nat, size: nat, plain: seq<byte>)

  /** The announcement fits the file, and does not contradict an earlier one for the same block. */
  predicate Acceptable(op: Operation, a: Announced)
    requires op.Upload?
  {
    && Min(op.blockSize, op.total - Mul(a.index, op.blockSize)) > 0
    && a.size == Min(op.blockSize, op.total - Mul(a.index, op.blockSize))
    && (a.index in op.allocations ==> op.allocations[a.index].size == a.size && op.allocations[a.index].plain == a.plain)
  }

  /** An upload's allocations in the making, with the assignments and the identifiers they use up. */
  datatype Draft = Draft(allocations: map<nat, BlockRef>, assignments: map<Id, Assignment>, uids: Id)

  /** The draft only adds: fresh versions, each assigned to its block and of the size the manifest wants there. */
  ghost predicate Extends(t: Tables, o: Id, d: Draft)
    requires o in t.ops && t.ops[o].Upload? && t.ops[o].blockSize > 0
  {
    var op := t.ops[o];
    && t.uids <= d.uids
    && (forall i :: i in op.allocations ==> i in d.allocations && d.allocations[i] == op.allocations[i])
    && (forall i :: i in d.allocations && i !in op.allocations ==> Drafted(t, o, d, i))
    && (forall b :: b in t.assignments ==> b in d.assignments && d.assignments[b] == t.assignments[b])
    && (forall b :: b in d.assignments && b !in t.assignments ==> t.uids <= b < d.uids)
  }

  ghost predicate Drafted(t: Tables, o: Id, d: Draft, i: nat)
    requires o in t.ops && t.ops[o].Upload? && t.ops[o].blockSize > 0 && i in d.allocations
  {
    var op, b := t.ops[o], d.allocations[i];
    && b.file == op.file && i < CeilDiv(op.total, op.blockSize) && Sized(b, i, op.blockSize, op.total)
    && t.uids <= b.version < d.uids && b.version in d.assignments && d.assignments[b.version] == Assignment(o, i)
  }

  function Next(d: Draft, o: Id, file: Id, a: Announced): Draft {
    if a.index in d.allocations then d
    else Draft(d.allocations[a.index := BlockRef(file, d.uids, a.index, a.size, a.plain)], d.assignments[d.uids := Assignment(o, a.index)], d.uids + 1)
  }

  lemma NextExtends(t: Tables, o: Id, d: Draft, a: Announced)
    requires IdsOk(t) && o in t.ops && t.ops[o].Upload? && t.ops[o].blockSize > 0 && Extends(t, o, d) && Acceptable(t.ops[o].(allocations := d.allocations), a)
    ensures Extends(t, o, Next(d, o, t.ops[o].file, a))
  {
    var op, e := t.ops[o], Next(d, o, t.ops[o].file, a);
    CeilDivBounds(op.total, op.blockSize);
    assert Mul(a.index, op.blockSize) < op.total;
    forall i | i in e.allocations && i !in op.allocations ensures Drafted(t, o, e, i) {
      if i in d.allocations {
        assert Drafted(t, o, d, i);
      }
    }
  }

  /** The tables once a draft is recorded. */
  function Enlisted(t: Tables, o: Id, d: Draft): Tables
    requires o in t.ops && t.ops[o].Upload?
  {
    t.(uids := d.uids, assignments := d.assignments, ops := t.ops[o := t.ops[o].(allocations := d.allocations)])
  }

  /** A page stays what it was as long as its blocks stay allocated. */
  lemma PageKept(op: Operation, op': Operation, p: nat)
    requires op.Upload? && op'.Upload? && op.blockSize > 0 && op'.blockSize == op.blockSize && op'.total == op.total
    requires p in op.pages && p in op'.pages && op'.pages[p] == op.pages[p] && PageOk(op, p)
    requires forall i :: i in op.allocations ==> i in op'.allocations && op'.allocations[i] == op.allocations[i]
    ensures PageOk(op', p)
  {
    forall k | 0 <= k < |op.pages[p]| ensures AllocatedAs(op', PAGE * p + k, op.pages[p][k]) {
      assert AllocatedAs(op, PAGE * p + k, op.pages[p][k]);
    }
  }

  lemma EnlistedOk(t: Tables, u: Tables, o: Id, d: Draft)
    requires IdsOk(t) && o in t.ops && t.ops[o].Upload? && t.ops[o].phase == PREPARING && OpOk(t, o)
    requires Extends(t, o, d) && u == Enlisted(t, o, d)
    ensures OpOk(u, o)
  {
    var op, op' := t.ops[o], u.ops[o];
    forall i | i in op'.allocations ensures AllocationOk(u, o, op', i) {
      if i in op.allocations {
        assert AllocationOk(t, o, op, i);
      } else {
        assert Drafted(t, o, d, i);
      }
    }
    forall p | p in op'.pages ensures PageOk(op', p) {
      assert PageOk(op, p);
      PageKept(op, op', p);
    }
  }

  /** Every announced block has its version, of the announced size and digest. */
  ghost predicate Answered(op: Operation, requested: seq<Announced>, n: nat)
    requires op.Upload? && n <= |requested|
  {
    forall k {:trigger requested[k]} :: 0 <= k < n ==>
      var a := requested[k];
      a.index in op.allocations && op.allocations[a.index] == BlockRef(op.file, op.allocations[a.index].version, a.index, a.size, a.plain)
  }

  /** The first n announcements are acceptable, and do not contradict each other. */
  ghost predicate Compatible(op: Operation, requested: seq<Announced>, n: nat)
    requires op.Upload? && n <= |requested|
  {
    && (forall k {:trigger requested[k]} :: 0 <= k < n ==> Acceptable(op, requested[k]))
    && (forall j, k {:trigger requested[j], requested[k]} :: 0 <= j < n && 0 <= k < n && requested[j].index == requested[k].index ==>
          requested[j].plain == requested[k].plain)
  }

  /** Every allocation that is new was announced. */
  ghost predicate Accounted(op: Operation, op': Operation, requested: seq<Announced>, n: nat)
    requires op.Upload? && op'.Upload? && n <= |requested|
  {
    forall i :: i in op'.allocations && i !in op.allocations ==> exists k :: 0 <= k < n && requested[k].index == i
  }

  /** One more announcement is acceptable exactly if it goes with those before it. */
  lemma OneMore(op: Operation, op': Operation, requested: seq<Announced>, n: nat)
    requires op.Upload? && op'.Upload? && n < |requested| && op' == op.(allocations := op'.allocations)
    requires forall i :: i in op.allocations ==> i in op'.allocations && op'.allocations[i] == op.allocations[i]
    requires Accounted(op, op', requested, n) && Answered(op', requested, n) && Compatible(op, requested, n)
    ensures Compatible(op, requested, n + 1) <==> Acceptable(op', requested[n])
  {
    var a := requested[n];
    if a.index in op'.allocations && a.index !in op.allocations {
      var k :| 0 <= k < n && requested[k].index == a.index;
      assert Acceptable(op, requested[k]);
    }
    if Acceptable(op', a) {
      forall k | 0 <= k < n && requested[k].index == a.index ensures requested[k].plain == a.plain {
        assert op'.allocations[a.index].plain == requested[k].plain;
      }
    }
  }

  /** The loop over the announced blocks: each keeps the version it has, or gets the next one if a node has room. */
  method DraftBlocks(t: Tables, o: Id, requested: seq<Announced>, placed: nat) returns (r: Result<Draft>)
    requires IdsOk(t) && o in t.ops && t.ops[o].Upload? && t.ops[o].blockSize > 0
    requires forall i :: i in t.ops[o].allocations ==> t.ops[o].allocations[i].index == i && t.ops[o].allocations[i].file == t.ops[o].file
    ensures r.Ok? <==> |requested| <= placed && Compatible(t.ops[o], requested, |requested|)
    ensures r.Ok? ==>
      var op' := t.ops[o].(allocations := r.value.allocations);
      Extends(t, o, r.value) && Accounted(t.ops[o], op', requested, |requested|) && Answered(op', requested, |requested|)
  {
    var op, d, n := t.ops[o], Draft(t.ops[o].allocations, t.assignments, t.uids), 0;
    while n < |requested|
      invariant 0 <= n <= Min(|requested|, placed) && DraftOk(t, o, d, requested, n) && Compatible(op, requested, n)
    {
      var a := requested[n];
      var size := Min(op.blockSize, op.total - Mul(a.index, op.blockSize));
      OneMore(op, op.(allocations := d.allocations), requested, n);
      if !(size > 0 && a.size == size) {
        return Err(InvalidArgument);
      }
      if a.index in d.allocations && !(d.allocations[a.index].size == size && d.allocations[a.index].plain == a.plain) {
        return Err(VersionConflict);
      }
      if n >= placed {
        return Err(InsufficientReplicas);
      }
      NextDraft(t, o, d, requested, n);
      d := Next(d, o, op.file, a);
      n := n + 1;
    }
    return Ok(d);
  }

  /** The draft answers the first n announcements. */
  ghost predicate DraftOk(t: Tables, o: Id, d: Draft, requested: seq<Announced>, n: nat)
    requires o in t.ops && t.ops[o].Upload? && t.ops[o].blockSize > 0 && n <= |requested|
  {
    var op, op' := t.ops[o], t.ops[o].(allocations := d.allocations);
    && Extends(t, o, d) && Accounted(op, op', requested, n) && Answered(op', requested, n)
    && forall i :: i in d.allocations ==> d.allocations[i].index == i && d.allocations[i].file == op.file
  }

  lemma NextDraft(t: Tables, o: Id, d: Draft, requested: seq<Announced>, n: nat)
    requires IdsOk(t) && o in t.ops && t.ops[o].Upload? && t.ops[o].blockSize > 0 && n < |requested|
    requires DraftOk(t, o, d, requested, n) && Acceptable(t.ops[o].(allocations := d.allocations), requested[n])
    ensures DraftOk(t, o, Next(d, o, t.ops[o].file, requested[n]), requested, n + 1)
  {
    NextExtends(t, o, d, requested[n]);
    NextAnswered(t.ops[o], d, o, requested, n);
  }

  lemma NextAnswered(op: Operation, d: Draft, o: Id, requested: seq<Announced>, n: nat)
    requires op.Upload? && n < |requested| && Acceptable(op.(allocations := d.allocations), requested[n])
    requires Accounted(op, op.(allocations := d.allocations), requested, n) && Answered(op.(allocations := d.allocations), requested, n)
    requires forall i :: i in d.allocations ==> d.allocations[i].index == i && d.allocations[i].file == op.file
    ensures var e := Next(d, o, op.file, requested[n]);
      Accounted(op, op.(allocations := e.allocations), requested, n + 1) && Answered(op.(allocations := e.allocations), requested, n + 1)
  {
    var e := Next(d, o, op.file, requested[n]);
    forall i | i in e.allocations && i !in op.allocations ensures exists k :: 0 <= k < n + 1 && requested[k].index == i {
      if i in d.allocations {
        var k :| 0 <= k < n && requested[k].index == i;
        assert 0 <= k < n + 1;
      } else {
        assert requested[n].index == i;
      }
    }
  }

  /** AllocateBlocks: all of the announced blocks get a version, or none does; asking again gives the same
      versions. placed says how many of them find nodes with room. */
  method AllocateBlocks(tx: Transaction, session: Id, o: Id, expired: bool, requested: seq<Announced>, placed: nat) returns (r: Result<Draft>)
    requires tx.Valid()
    modifies tx
    ensures tx.Kept()
    ensures r.Ok? <==>
      (UploadFault(old(tx.t), session, o, expired) == None && !old(tx.t).ops[o].sealed && 1 <= |requested| <= Min(PAGE, placed)
       && Compatible(old(tx.t).ops[o], requested, |requested|))
    ensures r.Err? ==> tx.t == old(tx.t)
    ensures r.Ok? ==> old(tx.t).ops[o].blockSize > 0 && Extends(old(tx.t), o, r.value) && tx.t == Enlisted(old(tx.t), o, r.value)
    ensures r.Ok? ==> Accounted(old(tx.t).ops[o], tx.t.ops[o], requested, |requested|) && Answered(tx.t.ops[o], requested, |requested|)
  {
    var t := tx.t;
    EvolvesReflexive(t, tx.domains);
    var fault := UploadFault(t, session, o, expired);
    if fault.Some? {
      return Err(fault.value);
    }
    if t.ops[o].sealed {
      return Err(VersionConflict);
    }
    if !(1 <= |requested| <= PAGE) {
      return Err(InvalidArgument);
    }
    assert OpOk(t, o);
    assert forall i :: i in t.ops[o].allocations ==> AllocationOk(t, o, t.ops[o], i);
    r := DraftBlocks(t, o, requested, placed);
    if r.Ok? {
      var u := Enlisted(t, o, r.value);
      EnlistedOk(t, u, o, r.value);
      ProgressStep(t, u, tx.domains, o, u.ops[o]);
      tx.t := u;
    }
  }

  // ---------------------------------------------------------------- ReportDurable

  /** A version belongs to one block of one operation. */
  lemma UploadVersion(t: Tables, domains: map<Id, Id>, o: Id, i: nat)
    requires Inv(t, domains) && o in t.ops && t.ops[o].Upload? && t.ops[o].phase == PREPARING && i in t.ops[o].allocations
    requires |t.ops[o].allocations[i].plain| == t.ops[o].allocations[i].size
    ensures Storable(t, t.ops[o].allocations[i])
  {
    var b := t.ops[o].allocations[i];
    assert OpOk(t, o) && AllocationOk(t, o, t.ops[o], i);
    forall q | q in t.ops && t.ops[q].phase == PREPARING ensures Expects(t.ops[q], b) {
      assert OpOk(t, q);
      if t.ops[q].Write? {
        forall j | 0 <= j < |t.ops[q].parts| ensures t.ops[q].parts[j].replacement != b.version {
          assert PartOk(t, q, t.ops[q], t.ops[q].parts[j]);
        }
      } else {
        forall k | k in t.ops[q].allocations && t.ops[q].allocations[k].version == b.version ensures t.ops[q].allocations[k] == b {
          assert AllocationOk(t, q, t.ops[q], k);
        }
      }
    }
  }

  /** A node reports that it stored allocated block i; it has checked length and digest against the announcement. */
  method ReportPut(tx: Transaction, session: Id, o: Id, expired: bool, i: nat, node: Id) returns (r: Result<()>)
    requires tx.Valid()
    modifies tx
    ensures tx.Kept()
    ensures r.Ok? <==>
      (UploadFault(old(tx.t), session, o, expired) == None && i in old(tx.t).ops[o].allocations
       && |old(tx.t).ops[o].allocations[i].plain| == old(tx.t).ops[o].allocations[i].size)
    ensures r.Err? ==> tx.t == old(tx.t)
    ensures r.Ok? ==> tx.t == Stored(old(tx.t), old(tx.t).ops[o].allocations[i], node)
    ensures r.Ok? ==> Holds(old(tx.t), tx.t, old(tx.t).ops[o].allocations[i], node)
  {
    var t := tx.t;
    EvolvesReflexive(t, tx.domains);
    var fault := UploadFault(t, session, o, expired);
    if fault.Some? {
      return Err(fault.value);
    }
    if i !in t.ops[o].allocations {
      return Err(VersionConflict);
    }
    var b := t.ops[o].allocations[i];
    if |b.plain| != b.size {
      return Err(ChecksumMismatch);
    }
    UploadVersion(t, tx.domains, o, i);
    StoreStep(t, Stored(t, b, node), tx.domains, b, node);
    StoredHolds(t, b, node);
    tx.t := Stored(t, b, node);
    return Ok(());
  }

  // ---------------------------------------------------------------- pages and seal

  predicate PageOf(t: Tables, op: Operation, p: nat, blocks: seq<BlockRef>, n: nat)
    requires op.Upload? && n <= |blocks|
  {
    forall k {:trigger blocks[k]} :: 0 <= k < n ==>
      && blocks[k].index == PAGE * p + k && AllocatedAs(op, PAGE * p + k, blocks[k])
      && blocks[k].version in t.blocks
  }

  method CheckPage(t: Tables, op: Operation, p: nat, blocks: seq<BlockRef>) returns (fault: Option<Reason>)
    requires op.Upload?
    ensures fault == None <==> PageOf(t, op, p, blocks, |blocks|)
  {
    var k := 0;
    while k < |blocks|
      invariant 0 <= k <= |blocks| && PageOf(t, op, p, blocks, k)
    {
      var index := PAGE * p + k;
      if !(blocks[k].index == index && AllocatedAs(op, index, blocks[k])) {
        return Some(VersionConflict);
      }
      if blocks[k].version !in t.blocks {
        return Some(DataUnavailable);
      }
      k := k + 1;
    }
    return None;
  }

  /** The operation has this page, whether it had another one before or none, and is as it was otherwise; so are all
      other operations. */
  ghost predicate PageAdded(t: Tables, u: Tables, o: Id, p: nat, blocks: seq<BlockRef>) {
    && o in t.ops && o in u.ops && t.ops[o].Upload? && u.ops[o].Upload?
    && p in u.ops[o].pages && u.ops[o].pages[p] == blocks
    && (forall q :: q != p ==> (q in u.ops[o].pages <==> q in t.ops[o].pages) && (q in t.ops[o].pages ==> u.ops[o].pages[q] == t.ops[o].pages[q]))
    && u.ops[o].(pages := t.ops[o].pages) == t.ops[o]
    && (forall q :: q in t.ops && q != o ==> q in u.ops && u.ops[q] == t.ops[q])
  }

  function WithPage(t: Tables, o: Id, p: nat, blocks: seq<BlockRef>): Tables
    requires o in t.ops && t.ops[o].Upload?
  {
    t.(ops := t.ops[o := t.ops[o].(pages := t.ops[o].pages[p := blocks])])
  }

  lemma WithPageOk(t: Tables, u: Tables, o: Id, p: nat, blocks: seq<BlockRef>)
    requires o in t.ops && t.ops[o].Upload? && t.ops[o].phase == PREPARING && OpOk(t, o) && u == WithPage(t, o, p, blocks)
    requires PageOf(t, t.ops[o], p, blocks, |blocks|) && 0 < |blocks| == Min(PAGE, CeilDiv(t.ops[o].total, t.ops[o].blockSize) - PAGE * p)
    ensures OpOk(u, o)
  {
    var op, op' := t.ops[o], u.ops[o];
    forall i | i in op'.allocations ensures AllocationOk(u, o, op', i) {
      assert AllocationOk(t, o, op, i);
    }
    forall q | q in op'.pages ensures PageOk(op', q) {
      if q != p {
        assert PageOk(op, q);
        PageKept(op, op', q);
      } else {
        assert forall k {:trigger blocks[k]} :: 0 <= k < |blocks| ==> AllocatedAs(op', PAGE * p + k, blocks[k]);
      }
    }
  }

  /** Exactly when a page is staged: it is complete, and lists allocated and stored blocks in order. */
  predicate MayStage(t: Tables, session: Id, o: Id, expired: bool, p: nat, blocks: seq<BlockRef>) {
    && UploadFault(t, session, o, expired) == None && !t.ops[o].sealed && t.ops[o].blockSize > 0
    && 0 < |blocks| <= PAGE && |blocks| == Min(PAGE, CeilDiv(t.ops[o].total, t.ops[o].blockSize) - PAGE * p)
    && PageOf(t, t.ops[o], p, blocks, |blocks|)
  }

  method StagePage(tx: Transaction, session: Id, o: Id, expired: bool, p: nat, blocks: seq<BlockRef>) returns (r: Result<()>)
    requires tx.Valid()
    modifies tx
    ensures tx.Kept()
    ensures r.Ok? <==> MayStage(old(tx.t), session, o, expired, p, blocks)
    ensures r.Err? ==> tx.t == old(tx.t)
    ensures r.Ok? ==> tx.t == WithPage(old(tx.t), o, p, blocks)
    ensures r.Ok? ==> tx.t.ops.Keys == old(tx.t).ops.Keys && tx.t == old(tx.t).(ops := tx.t.ops) && PageAdded(old(tx.t), tx.t, o, p, blocks)
  {
    var t := tx.t;
    EvolvesReflexive(t, tx.domains);
    var fault := UploadFault(t, session, o, expired);
    if fault.Some? {
      return Err(fault.value);
    }
    var op := t.ops[o];
    if op.sealed {
      return Err(VersionConflict);
    }
    assert OpOk(t, o);
    if !(0 < |blocks| <= PAGE && |blocks| == Min(PAGE, CeilDiv(op.total, op.blockSize) - PAGE * p)) {
      return Err(InvalidArgument);
    }
    fault := CheckPage(t, op, p, blocks);
    if fault.Some? {
      return Err(fault.value);
    }
    var u := WithPage(t, o, p, blocks);
    WithPageOk(t, u, o, p, blocks);
    ProgressStep(t, u, tx.domains, o, u.ops[o]);
    tx.t := u;
    return Ok(());
  }

  function Sealed(t: Tables, o: Id): Tables
    requires o in t.ops && t.ops[o].Upload?
  {
    t.(ops := t.ops[o := t.ops[o].(sealed := true)])
  }

  lemma SealedOk(t: Tables, u: Tables, o: Id)
    requires o in t.ops && t.ops[o].Upload? && t.ops[o].phase == PREPARING && OpOk(t, o) && u == Sealed(t, o)
    ensures OpOk(u, o)
  {
    var op, op' := t.ops[o], u.ops[o];
    forall i | i in op'.allocations ensures AllocationOk(u, o, op', i) {
      assert AllocationOk(t, o, op, i);
    }
    forall q | q in op'.pages ensures PageOk(op', q) {
      assert PageOk(op, q);
      PageKept(op, op', q);
    }
  }

  /** The number of pages that a manifest of this upload has. */
  function PageCount(op: Operation): nat
    requires op.Upload? && op.blockSize > 0
  {
    CeilDiv(CeilDiv(op.total, op.blockSize), PAGE)
  }

  /** The client's manifest is the one that was allocated. */
  ghost predicate Agrees(op: Operation, listed: seq<BlockRef>, total: nat, pages: nat)
    requires op.Upload? && op.blockSize > 0
  {
    && total == op.total && pages == |op.pages| == PageCount(op) && |listed| == CeilDiv(op.total, op.blockSize)
    && Assembled(op, listed)
  }

  lemma SameManifest(op: Operation, a: seq<BlockRef>, b: seq<BlockRef>)
    requires op.Upload? && op.blockSize > 0 && Assembled(op, a) && |a| == CeilDiv(op.total, op.blockSize)
    ensures a == b <==> |b| == CeilDiv(op.total, op.blockSize) && Assembled(op, b)
  {
    if |a| == |b| && Assembled(op, b) {
      assert forall i :: 0 <= i < |a| ==> a[i] == b[i];
    }
  }

  /** The manifest is closed once all of its pages are there, and what client and control make of it agrees; listed is
      what the client's digest was taken of, and verified says that all of the content was found in place. */
  method SealManifest(tx: Transaction, session: Id, o: Id, expired: bool, listed: seq<BlockRef>, total: nat, pages: nat, verified: bool)
    returns (r: Result<()>)
    requires tx.Valid()
    modifies tx
    ensures tx.Kept()
    ensures r.Ok? <==>
      (UploadFault(old(tx.t), session, o, expired) == None && verified && old(tx.t).ops[o].blockSize > 0
       && Agrees(old(tx.t).ops[o], listed, total, pages))
    ensures r.Err? ==> tx.t == old(tx.t)
    ensures r.Ok? ==> tx.t == Sealed(old(tx.t), o)
    ensures r.Ok? ==> o in tx.t.ops && tx.t.ops[o].Upload? && tx.t.ops[o].sealed && tx.t.ops[o].(sealed := old(tx.t).ops[o].sealed) == old(tx.t).ops[o]
  {
    var t := tx.t;
    EvolvesReflexive(t, tx.domains);
    var fault := UploadFault(t, session, o, expired);
    if fault.Some? {
      return Err(fault.value);
    }
    assert OpOk(t, o);
    UploadStaged(t, o);
    var blocks := Assemble(t.ops[o]);
    if blocks.Err? {
      return Err(blocks.reason);
    }
    SameManifest(t.ops[o], blocks.value, listed);
    if !(blocks.value == listed && total == t.ops[o].total && pages == |t.ops[o].pages| && verified) {
      return Err(ChecksumMismatch);
    }
    var u := Sealed(t, o);
    SealedOk(t, u, o);
    ProgressStep(t, u, tx.domains, o, u.ops[o]);
    tx.t := u;
    return Ok(());
  }
}
