/** What the invariant and the steps give over whole runs of commands, in any order. */
module Runs {
  import opened Bytes
  import opened Layout
  import opened Tables
  import opened Steps
  import opened Progress
  import opened Leases
  import opened Handles
  import opened Commits

  /** The states of a run of commands, whatever they are (Commands.PerformAll): each keeps the invariant, and evolves
      from the one before it. */
  ghost predicate IsRun(run: seq<Tables>, domains: map<Id, Id>) {
    && (forall i {:trigger Inv(run[i], domains)} :: 0 <= i < |run| ==> Inv(run[i], domains))
    && (forall i, j {:trigger Evolves(run[i], run[j])} :: 0 <= i && j == i + 1 < |run| ==> Evolves(run[i], run[j]))
  }

  lemma {:induction false} RunEvolves(run: seq<Tables>, domains: map<Id, Id>, i: nat, j: nat)
    requires IsRun(run, domains) && i <= j < |run|
    ensures Evolves(run[i], run[j])
    decreases j
  {
    assert Inv(run[i], domains) && Inv(run[j], domains);
    if i < j {
      RunEvolves(run, domains, i, j - 1);
      assert Inv(run[j - 1], domains) && Evolves(run[j - 1], run[j]);
      EvolvesTransitive(run[i], run[j - 1], run[j]);
    } else {
      EvolvesReflexive(run[i], domains);
    }
  }

  /** No live file, live handle or prepared operation can reach a retired block, and no node is known to hold it. */
  lemma RetiredUnreachable(t: Tables, domains: map<Id, Id>, b: Id)
    requires Inv(t, domains) && b in t.retired
    ensures b !in t.blocks && LocationsOf(t, b) == {} && Unreachable(t, b)
  {
    forall s | s in t.snapshots && Pinned(t, s) ensures b !in Versions(t.snapshots[s].blocks) {
      assert Recorded(t, s);
    }
    forall o | o in t.ops && t.ops[o].phase == PREPARING ensures b !in Reserved(t.ops[o]) {
      assert OpOk(t, o);
      if t.ops[o].Write? {
        forall p | p in t.ops[o].parts ensures p.replacement != b {
          var j :| 0 <= j < |t.ops[o].parts| && t.ops[o].parts[j] == p;
          assert PartOk(t, o, t.ops[o], t.ops[o].parts[j]);
        }
      } else {
        forall i | i in t.ops[o].allocations ensures t.ops[o].allocations[i].version != b {
          assert AllocationOk(t, o, t.ops[o], i);
        }
      }
    }
  }

  /** Retired, not recorded, not located, and out of everybody's reach. */
  ghost predicate Buried(t: Tables, b: Id) {
    b in t.retired && b !in t.blocks && LocationsOf(t, b) == {} && Unreachable(t, b)
  }

  /** A tombstone is for good: once retired, a block never is recorded, located or reachable again. */
  lemma TombstonesAreFinal(run: seq<Tables>, domains: map<Id, Id>, i: nat, j: nat, b: Id)
    requires IsRun(run, domains) && i <= j < |run| && b in run[i].retired
    ensures Buried(run[j], b)
  {
    RunEvolves(run, domains, i, j);
    assert Inv(run[j], domains);
    RetiredUnreachable(run[j], domains, b);
  }

  ghost predicate SameBytes(before: Snapshot, after: Snapshot) {
    after == before && |Content(after.blocks)| == before.total
  }

  /** A snapshot that is still there spells the bytes it always spelled: a reader's view never changes. */
  lemma SnapshotsStay(run: seq<Tables>, domains: map<Id, Id>, i: nat, j: nat, s: Id)
    requires IsRun(run, domains) && i <= j < |run| && s in run[i].snapshots && s in run[j].snapshots
    ensures SameBytes(run[i].snapshots[s], run[j].snapshots[s])
  {
    RunEvolves(run, domains, i, j);
    assert Inv(run[i], domains) && Inv(run[j], domains);
    assert SnapshotOk(run[j].snapshots[s]);
    ContentBlock(run[j].snapshots[s].blocks, run[j].snapshots[s].blockSize, run[j].snapshots[s].total, 0);
  }

  /** A live handle can always read: its snapshot is there, well formed, and all of its blocks are recorded. */
  lemma HandlesRead(t: Tables, domains: map<Id, Id>, i: Id, k: nat)
    requires Inv(t, domains) && i in t.handles && HandleLive(t, t.handles[i])
    ensures t.handles[i].snapshot in t.snapshots
    ensures var s := t.snapshots[t.handles[i].snapshot];
      && WellFormed(s.blocks, s.blockSize, s.total) && s.file == t.handles[i].file
      && (k < |s.blocks| ==> s.blocks[k].version in t.blocks && t.blocks[s.blocks[k].version] == s.blocks[k])
  {
    assert HandleOk(t, i);
    var s := t.handles[i].snapshot;
    assert Pinned(t, s);
    assert Recorded(t, s) && SnapshotOk(t.snapshots[s]);
  }

  /** Every block of the file's current snapshot has receipts in at least w failure domains. */
  ghost predicate DurableIn(t: Tables, domains: map<Id, Id>, f: Id, w: nat) {
    Alive(t, f) ==> forall b :: b in Current(t, f).blocks ==> |Domains(domains, ReceiptsOf(t, b.version))| >= w
  }

  /** Durability over a run: once a file has its first policy, each block of its current snapshot has receipts in as
      many failure domains as that one asks, whatever policies follow; and no receipt is ever lost. */
  lemma DurabilityLasts(run: seq<Tables>, domains: map<Id, Id>, i: nat, j: nat, f: Id)
    requires IsRun(run, domains) && i <= j < |run| && f in run[i].policies
    ensures DurableIn(run[j], domains, f, run[i].policies[f].first)
    ensures run[i].policies[f].revision == 1 ==> DurableIn(run[j], domains, f, run[i].policies[f].w)
    ensures forall b :: ReceiptsOf(run[i], b) <= ReceiptsOf(run[j], b)
  {
    RunEvolves(run, domains, i, j);
    assert Inv(run[j], domains);
    if Alive(run[j], f) {
      assert DurableOk(run[j], domains, f);
    }
  }

  // ---------------------------------------------------------------- two writers

  /** Writes that touch no block in common touch no byte in common. */
  lemma BlocksApartBytesApart(a: Operation, b: Operation)
    requires a.Write? && b.Write? && WriteShape(a) && WriteShape(b) && a.blockSize == b.blockSize
    requires forall j, k :: 0 <= j < |a.parts| && 0 <= k < |b.parts| ==> a.parts[j].part.index != b.parts[k].part.index
    ensures a.offset + |a.delta| <= b.offset || b.offset + |b.delta| <= a.offset
  {
    if b.offset < a.offset + |a.delta| && a.offset < b.offset + |b.delta| {
      var j, k := SharedBlock(a, b);
    }
  }

  lemma SharedBlock(a: Operation, b: Operation) returns (j: nat, k: nat)
    requires a.Write? && b.Write? && WriteShape(a) && WriteShape(b) && a.blockSize == b.blockSize
    requires b.offset < a.offset + |a.delta| && a.offset < b.offset + |b.delta|
    ensures j < |a.parts| && k < |b.parts| && a.parts[j].part.index == b.parts[k].part.index
  {
    var x := Max(a.offset, b.offset);
    BlockOfByte(a, x);
    BlockOfByte(b, x);
    j, k := Div(x, a.blockSize) - Div(a.offset, a.blockSize), Div(x, b.blockSize) - Div(b.offset, b.blockSize);
  }

  lemma BlockOfByte(op: Operation, x: nat)
    requires op.Write? && WriteShape(op) && op.offset <= x < op.offset + |op.delta|
    ensures 0 <= Div(x, op.blockSize) - Div(op.offset, op.blockSize) < |op.parts|
    ensures op.parts[Div(x, op.blockSize) - Div(op.offset, op.blockSize)].part.index == Div(x, op.blockSize)
  {
    var size := op.blockSize;
    PartRange(op.offset, |op.delta|, size);
    CeilDivBounds(op.offset + |op.delta|, size);
    DivSplit(x, size);
    DivSplit(op.offset, size);
    if Div(x, size) < Div(op.offset, size) {
      MulMonotone(Div(x, size), Div(op.offset, size), size);
    }
    var j := Div(x, size) - Div(op.offset, size);
    assert op.parts[j].part == PartAt(op.offset, |op.delta|, size, j);
  }

  /** Two writes begun from one snapshot, or from any two, both survive: once o is published, q still is
      uncontested, and publishing it as well leaves both deltas in the file. */
  lemma BothSurvive(t: Tables, u: Tables, domains: map<Id, Id>, o: Id, q: Id, s: Snapshot, next: Snapshot)
    requires Ready(t, domains, o) && Target(t, t.ops[o], s) && Rivals(t, domains, o, q)
    requires next == NextSnapshot(s, t.ops[o], Replacements(t, t.ops[o]))
    requires Ready(u, domains, q) && u.ops[q] == t.ops[q] && Target(u, t.ops[q], next)
    ensures var a, b := t.ops[o], t.ops[q];
      var both := Content(NextSnapshot(next, b, Replacements(u, b)).blocks);
      && a.offset <= |Content(s.blocks)| && b.offset <= |Splice(Content(s.blocks), a.offset, a.delta)|
      && both == Splice(Splice(Content(s.blocks), a.offset, a.delta), b.offset, b.delta)
      && both[a.offset..a.offset + |a.delta|] == a.delta
      && both[b.offset..b.offset + |b.delta|] == b.delta
  {
    var a, b := t.ops[o], t.ops[q];
    ReadySnapshot(t, domains, o, s);
    ReadySnapshot(u, domains, q, next);
    RivalsApart(t, domains, o, q);
    FencedWriteCannotConflict(t, domains, o);
    FencedWriteCannotConflict(t, domains, q);
    BlocksApartBytesApart(a, b);
    ApartSplices(Content(s.blocks), a.offset, a.delta, b.offset, b.delta);
  }

  lemma ApartSplices(c: seq<byte>, i: nat, x: seq<byte>, j: nat, y: seq<byte>)
    requires i <= |c| && j <= |Splice(c, i, x)| && (i + |x| <= j || j + |y| <= i)
    ensures Splice(Splice(c, i, x), j, y)[i..i + |x|] == x && Splice(Splice(c, i, x), j, y)[j..j + |y|] == y
  {
  }
}
