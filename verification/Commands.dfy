/** The commands of the access machine, performed one after another in any order and with any arguments. */
module Commands {
  import opened Bytes
  import opened Layout
  import opened Tables
  import opened Leases
  import Handles
  import Prepare
  import Blocks
  import Writes
  import Uploads
  import Staging
  import Publishing
  import Maintenance
  import opened Runs

  datatype HandleCommand =
    | Open(found: Id, mode: Mode, reserved: bool, room: bool)
    | RenewHandle(handle: Id)
    | Close(handle: Id)
    | LockFile(handle: Id, whole: bool, offset: nat, length: nat)
    | RenewLock(fence: Fence)
    | Unlock(fence: Fence)

  datatype WriteCommand =
    | BeginWrite(handle: Id, base: Id, offset: nat, delta: seq<byte>, parts: seq<Part>, fences: seq<Fence>, placed: bool)
    | ReportPatch(op: Id, part: nat, node: Id, records: seq<seq<byte>>)
    | CommitWrite(op: Id, handle: Id, revision: nat, fences: seq<Fence>, changes: seq<BlockRef>, healthy: set<Id>)
    | AbortWrite(op: Id)

  datatype UploadCommand =
    | BeginUpload(existing: Id, overwrite: bool, expected: Id, total: nat, reserved: bool, room: bool)
    | AllocateBlocks(op: Id, requested: seq<Staging.Announced>, placed: nat)
    | ReportPut(op: Id, index: nat, node: Id)
    | StagePage(op: Id, page: nat, blocks: seq<BlockRef>)
    | SealManifest(op: Id, listed: seq<BlockRef>, total: nat, pages: nat, verified: bool)
    | CommitUpload(op: Id, taken: bool, healthy: set<Id>)
    | AbortUpload(op: Id)
    | RenewUpload(op: Id, seconds: nat)

  datatype UpkeepCommand =
    | Tick(seconds: nat)
    | Restart
    | Remove(file: Id)
    | Promote(file: Id, expected: nat)
    | SettlePromotion(file: Id, reached: bool, late: bool)
    | ConfirmCopy(block: Id, node: Id)
    | Collect(lapsed: set<Id>, extra: set<Id>, tasks: set<Id>)

  /** expired says that the upload's wall-clock deadline has passed. */
  datatype Command =
    | OnHandle(session: Id, h: HandleCommand)
    | OnWrite(session: Id, w: WriteCommand)
    | OnUpload(session: Id, expired: bool, u: UploadCommand)
    | Upkeep(k: UpkeepCommand)

  method PerformOnHandle(tx: Transaction, session: Id, c: HandleCommand)
    requires tx.Valid()
    modifies tx
    ensures tx.Kept()
  {
    match c {
      case Open(found, mode, reserved, room) => var r := Handles.Open(tx, session, found, mode, reserved, room);
      case RenewHandle(i) => var r := Handles.RenewHandle(tx, session, i);
      case Close(i) => var r := Handles.Close(tx, session, i);
      case LockFile(i, whole, offset, length) => var r := Handles.LockFile(tx, session, i, whole, offset, length);
      case RenewLock(f) => var r := Handles.RenewLock(tx, session, f);
      case Unlock(f) => var r := Handles.Unlock(tx, session, f);
    }
  }

  method PerformOnWrite(tx: Transaction, session: Id, c: WriteCommand)
    requires tx.Valid()
    modifies tx
    ensures tx.Kept()
  {
    match c {
      case BeginWrite(i, base, offset, delta, parts, fences, placed) =>
        var r := Prepare.BeginWrite(tx, session, i, base, offset, delta, parts, fences, placed);
      case ReportPatch(o, k, node, records) => var r := Blocks.ReportPatch(tx, session, o, k, node, records);
      case CommitWrite(o, i, revision, fences, changes, healthy) =>
        var r := Writes.CommitWrite(tx, session, o, i, revision, fences, changes, healthy);
      case AbortWrite(o) => var r := Writes.AbortWrite(tx, session, o);
    }
  }

  method PerformOnUpload(tx: Transaction, session: Id, expired: bool, c: UploadCommand)
    requires tx.Valid()
    modifies tx
    ensures tx.Kept()
  {
    match c {
      case BeginUpload(f, overwrite, expected, total, reserved, room) =>
        var r := Uploads.BeginUpload(tx, session, f, overwrite, expected, total, reserved, room);
      case AllocateBlocks(o, requested, placed) => var r := Staging.AllocateBlocks(tx, session, o, expired, requested, placed);
      case ReportPut(o, i, node) => var r := Staging.ReportPut(tx, session, o, expired, i, node);
      case StagePage(o, p, blocks) => var r := Staging.StagePage(tx, session, o, expired, p, blocks);
      case SealManifest(o, listed, total, pages, verified) =>
        var r := Staging.SealManifest(tx, session, o, expired, listed, total, pages, verified);
      case CommitUpload(o, taken, healthy) => var r := Publishing.CommitUpload(tx, session, o, expired, taken, healthy);
      case AbortUpload(o) => var r := Publishing.AbortUpload(tx, session, o);
      case RenewUpload(o, seconds) => var r := Publishing.RenewUpload(tx, session, o, expired, Min(seconds, Uploads.TRANSFER_SECONDS));
    }
  }

  /** Promotions are settled only while they are under way. */
  method PerformUpkeep(tx: Transaction, c: UpkeepCommand)
    requires tx.Valid()
    modifies tx
    ensures tx.Kept()
  {
    match c {
      case Tick(seconds) => tx.Tick(seconds);
      case Restart => tx.Restart();
      case Remove(f) => var r := Maintenance.Remove(tx, f);
      case Promote(f, expected) => var r := Maintenance.Promote(tx, f, expected);
      case SettlePromotion(f, reached, late) =>
        if f in tx.t.policies && tx.t.policies[f].state == PROMOTING {
          Maintenance.SettlePromotion(tx, f, reached, late);
        } else {
          EvolvesReflexive(tx.t, tx.domains);
        }
      case ConfirmCopy(b, node) => var r := Maintenance.ConfirmCopy(tx, b, node);
      case Collect(lapsed, extra, tasks) => Maintenance.Collect(tx, lapsed, extra, tasks);
    }
  }

  method Perform(tx: Transaction, c: Command)
    requires tx.Valid()
    modifies tx
    ensures tx.Kept()
  {
    match c {
      case OnHandle(session, h) => PerformOnHandle(tx, session, h);
      case OnWrite(session, w) => PerformOnWrite(tx, session, w);
      case OnUpload(session, expired, u) => PerformOnUpload(tx, session, expired, u);
      case Upkeep(k) => PerformUpkeep(tx, k);
    }
  }

  /** run lists the tables before the first command and after each of them: any commands make a run. */
  method PerformAll(tx: Transaction, commands: seq<Command>) returns (ghost run: seq<Tables>)
    requires tx.Valid()
    modifies tx
    ensures tx.Valid() && IsRun(run, tx.domains)
    ensures |run| == |commands| + 1 && run[0] == old(tx.t) && run[|commands|] == tx.t
  {
    run := [tx.t];
    var i := 0;
    while i < |commands|
      invariant 0 <= i <= |commands| && tx.Valid() && IsRun(run, tx.domains)
      invariant |run| == i + 1 && run[0] == old(tx.t) && run[i] == tx.t
    {
      ghost var was := run;
      Perform(tx, commands[i]);
      run := run + [tx.t];
      i := i + 1;
      RunExtends(was, tx.t, tx.domains);
    }
  }

  lemma RunExtends(run: seq<Tables>, t: Tables, domains: map<Id, Id>)
    requires IsRun(run, domains) && run != [] && Inv(t, domains) && Evolves(run[|run| - 1], t)
    ensures IsRun(run + [t], domains)
  {
    var longer := run + [t];
    forall i | 0 <= i < |longer| ensures Inv(longer[i], domains) {
      assert i < |run| ==> Inv(run[i], domains);
    }
    forall i, j | 0 <= i && j == i + 1 < |longer| ensures Evolves(longer[i], longer[j]) {
      assert j < |run| ==> Evolves(run[i], run[j]);
    }
  }

  /** Every history of a new file system: whatever commands are performed in whatever order, a retired block stays
      buried, a kept snapshot spells the same bytes, a file's blocks stay as durable as its first policy asks, and live
      locks of different owners never clash. */
  method History(cfg: Config, domains: map<Id, Id>, commands: seq<Command>) returns (tx: Transaction, ghost run: seq<Tables>)
    requires ConfigOk(cfg)
    ensures fresh(tx) && tx.Valid() && |run| == |commands| + 1 && run[0] == Start() && run[|commands|] == tx.t
    ensures forall i, j, b :: 0 <= i <= j < |run| && b in run[i].retired ==> Buried(run[j], b)
    ensures forall i, j, s :: 0 <= i <= j < |run| && s in run[i].snapshots && s in run[j].snapshots ==>
      SameBytes(run[i].snapshots[s], run[j].snapshots[s])
    ensures forall i, j, f :: 0 <= i <= j < |run| && f in run[i].policies ==> DurableIn(run[j], domains, f, run[i].policies[f].first)
    ensures forall i :: 0 <= i < |run| ==> LocksExclude(run[i])
  {
    tx := new Transaction(cfg, domains);
    run := PerformAll(tx, commands);
    forall i, j, b | 0 <= i <= j < |run| && b in run[i].retired ensures Buried(run[j], b) {
      TombstonesAreFinal(run, domains, i, j, b);
    }
    forall i, j, s | 0 <= i <= j < |run| && s in run[i].snapshots && s in run[j].snapshots
      ensures SameBytes(run[i].snapshots[s], run[j].snapshots[s])
    {
      SnapshotsStay(run, domains, i, j, s);
    }
    forall i, j, f | 0 <= i <= j < |run| && f in run[i].policies ensures DurableIn(run[j], domains, f, run[i].policies[f].first) {
      DurabilityLasts(run, domains, i, j, f);
    }
    forall i | 0 <= i < |run| ensures LocksExclude(run[i]) {
      assert Inv(run[i], domains);
    }
  }
}
