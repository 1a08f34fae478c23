/** Publication of a prepared write: it refines a splice, and no fenced write can be in its way. */
module Commits {
  import opened Bytes
  import opened Layout
  import opened Tables
  import opened Steps
  import opened Progress
  import opened Leases
  import opened Handles

  /** The base and size checks of CommitWrite cannot fail while the fences are held: by the invariant nobody has
      published anything that this write was prepared on. */
  lemma FencedWriteCannotConflict(t: Tables, domains: map<Id, Id>, o: Id)
    requires Inv(t, domains) && o in t.ops && t.ops[o].Write? && t.ops[o].phase == PREPARING && WriteFenced(t, t.ops[o])
    ensures WriteShape(t.ops[o]) && Uncontested(t, t.ops[o])
    ensures SnapshotOk(Current(t, t.ops[o].file)) && Current(t, t.ops[o].file).file == t.ops[o].file
  {
    assert OpOk(t, o);
    assert NodeOk(t, t.ops[o].file);
    assert SnapshotOk(t.snapshots[t.nodes[t.ops[o].file].snapshot]);
  }

  // ---------------------------------------------------------------- fenced writes are apart

  /** Two writes on one file, both prepared and fenced. */
  ghost predicate Rivals(t: Tables, domains: map<Id, Id>, o: Id, q: Id) {
    && Inv(t, domains) && o != q
    && o in t.ops && t.ops[o].Write? && t.ops[o].phase == PREPARING && WriteFenced(t, t.ops[o])
    && q in t.ops && t.ops[q].Write? && t.ops[q].phase == PREPARING && WriteFenced(t, t.ops[q])
    && t.ops[o].file == t.ops[q].file
  }

  lemma RivalFences(t: Tables, domains: map<Id, Id>, o: Id, q: Id, f: Fence, g: Fence)
    requires Rivals(t, domains, o, q) && f in t.ops[o].fences && g in t.ops[q].fences
    ensures !f.whole && !g.whole && !(f.size && g.size) && f.indices * g.indices == {}
  {
    assert OpOk(t, o) && OpOk(t, q);
    assert FenceHeld(t, t.ops[o].session, f) && FenceHeld(t, t.ops[q].session, g);
    assert t.ops[o].handle != t.ops[q].handle;
    var a, b := t.locks[f.lock], t.locks[g.lock];
    assert !SameOwner(a, b) && Excludes(t, a, b);
    assert f == FenceOf(f.lock, a) && g == FenceOf(g.lock, b) && a.indices * b.indices == {};
  }

  /** Fenced writes touch different blocks, and at most one of them grows the file. */
  lemma RivalsApart(t: Tables, domains: map<Id, Id>, o: Id, q: Id)
    requires Rivals(t, domains, o, q)
    ensures !(t.ops[o].growing && t.ops[q].growing)
    ensures forall j, k :: 0 <= j < |t.ops[o].parts| && 0 <= k < |t.ops[q].parts| ==> t.ops[o].parts[j].part.index != t.ops[q].parts[k].part.index
  {
    assert OpOk(t, o) && OpOk(t, q);
    var a, b := t.ops[o], t.ops[q];
    if a.growing && b.growing {
      var f, g :| f in a.fences && f.size && g in b.fences && g.size;
      RivalFences(t, domains, o, q, f, g);
    }
    forall j, k | 0 <= j < |a.parts| && 0 <= k < |b.parts| ensures a.parts[j].part.index != b.parts[k].part.index {
      assert Covered(a.fences, a.parts[j].part.index) && Covered(b.fences, b.parts[k].part.index);
      var f :| f in a.fences && (f.whole || a.parts[j].part.index in f.indices);
      var g :| g in b.fences && (g.whole || b.parts[k].part.index in g.indices);
      RivalFences(t, domains, o, q, f, g);
      assert a.parts[j].part.index !in f.indices * g.indices;
    }
  }

  // ---------------------------------------------------------------- the published snapshot

  ghost predicate AllStored(t: Tables, op: Operation)
    requires op.Write?
  {
    forall j {:trigger op.parts[j]} :: 0 <= j < |op.parts| ==> op.parts[j].replacement in t.blocks
  }

  function Replacements(t: Tables, op: Operation): seq<BlockRef>
    requires op.Write? && forall j {:trigger op.parts[j]} :: 0 <= j < |op.parts| ==> op.parts[j].replacement in t.blocks
  {
    seq(|op.parts|, j requires 0 <= j < |op.parts| => t.blocks[op.parts[j].replacement])
  }

  /** The next snapshot: the touched blocks replaced in what is current now, however old the write's own base is. */
  function NextSnapshot(s: Snapshot, op: Operation, replacements: seq<BlockRef>): Snapshot
    requires op.Write? && op.blockSize > 0 && Div(op.offset, op.blockSize) <= |s.blocks|
  {
    Snapshot(op.file, op.contentEpoch, s.version + 1, Max(s.total, Max(op.baseTotal, op.offset + |op.delta|)), op.blockSize,
      Patched(s.blocks, Div(op.offset, op.blockSize), replacements))
  }

  /** A write that is ready: fenced, and all of its replacements stored. */
  ghost predicate Ready(t: Tables, domains: map<Id, Id>, o: Id) {
    && Inv(t, domains) && o in t.ops && t.ops[o].Write? && t.ops[o].phase == PREPARING && WriteFenced(t, t.ops[o])
    && AllStored(t, t.ops[o])
  }

  /** s is the snapshot that op is going to be applied to. */
  ghost predicate Target(t: Tables, op: Operation, s: Snapshot)
    requires op.Write?
  {
    Alive(t, op.file) && s == Current(t, op.file) && op.blockSize > 0 && Div(op.offset, op.blockSize) <= |s.blocks|
  }

  lemma ReadyReplaces(t: Tables, domains: map<Id, Id>, o: Id, s: Snapshot)
    requires Ready(t, domains, o) && Target(t, t.ops[o], s)
    ensures var op := t.ops[o]; ReplacesAll(Replacements(t, op), s.blocks, op.file, op.offset, op.delta, op.blockSize)
  {
    var op := t.ops[o];
    FencedWriteCannotConflict(t, domains, o);
    assert OpOk(t, o);
    forall j | 0 <= j < |op.parts|
      ensures Replaces(Replacements(t, op)[j], BlockAt(s.blocks, Div(op.offset, op.blockSize) + j, op.file), PartAt(op.offset, |op.delta|, op.blockSize, j), op.delta)
    {
      assert PartOk(t, o, op, op.parts[j]);
      assert op.parts[j].part == PartAt(op.offset, |op.delta|, op.blockSize, j);
    }
  }

  /** Its snapshot is well formed and holds the current bytes with the delta written at its offset. */
  lemma ReadySnapshot(t: Tables, domains: map<Id, Id>, o: Id, s: Snapshot)
    requires Ready(t, domains, o) && Target(t, t.ops[o], s)
    ensures var op := t.ops[o]; var next := NextSnapshot(s, op, Replacements(t, op));
      && op.offset <= |Content(s.blocks)|
      && SnapshotOk(next)
      && Content(next.blocks) == Splice(Content(s.blocks), op.offset, op.delta)
      && next.total == Max(s.total, op.offset + |op.delta|)
      && NotAhead(s, next) && next.epoch == s.epoch && next.blockSize == s.blockSize
  {
    var op := t.ops[o];
    FencedWriteCannotConflict(t, domains, o);
    ReadyReplaces(t, domains, o, s);
    var rs := Replacements(t, op);
    PatchIsSplice(s.blocks, op.file, op.offset, op.delta, op.blockSize, s.total, rs);
    var next := NextSnapshot(s, op, rs);
    forall b | b in next.blocks ensures b.file == op.file {
      var i :| 0 <= i < |next.blocks| && next.blocks[i] == b;
      ReadyBlock(t, domains, o, s, i);
    }
  }

  lemma ReadyBlock(t: Tables, domains: map<Id, Id>, o: Id, s: Snapshot, i: nat)
    requires Ready(t, domains, o) && Target(t, t.ops[o], s)
    requires i < |Patched(s.blocks, Div(t.ops[o].offset, t.ops[o].blockSize), Replacements(t, t.ops[o]))|
    ensures var b := Patched(s.blocks, Div(t.ops[o].offset, t.ops[o].blockSize), Replacements(t, t.ops[o]))[i];
            && (b in s.blocks || b in Replacements(t, t.ops[o]))
            && b.file == t.ops[o].file && b.version in t.blocks && t.blocks[b.version] == b
  {
    var op := t.ops[o];
    var first, rs := Div(op.offset, op.blockSize), Replacements(t, op);
    FencedWriteCannotConflict(t, domains, o);
    if first <= i < first + |rs| {
      assert OpOk(t, o) && PartOk(t, o, op, op.parts[i - first]);
      assert rs[i - first] == t.blocks[op.parts[i - first].replacement];
    } else {
      assert s.blocks[i] in s.blocks;
      assert Pinned(t, t.nodes[op.file].snapshot);
      assert Recorded(t, t.nodes[op.file].snapshot);
    }
  }

  /** Enough failure domains have acknowledged b, and enough of them can serve it now. */
  predicate EnoughCopies(t: Tables, domains: map<Id, Id>, healthy: set<Id>, b: Id, w: nat) {
    && |Domains(domains, ReceiptsOf(t, b))| >= w
    && |Domains(domains, LocationsOf(t, b) * healthy)| >= w
  }

  ghost predicate AllDurable(t: Tables, domains: map<Id, Id>, healthy: set<Id>, op: Operation)
    requires op.Write?
  {
    forall j {:trigger op.parts[j]} :: 0 <= j < |op.parts| ==> EnoughCopies(t, domains, healthy, op.parts[j].replacement, PolicyOf(t, op.file).w)
  }

  lemma ReadyPublishable(t: Tables, domains: map<Id, Id>, healthy: set<Id>, o: Id, s: Snapshot)
    requires Ready(t, domains, o) && Target(t, t.ops[o], s) && AllDurable(t, domains, healthy, t.ops[o])
    ensures Publishable(t, domains, t.ops[o].file, NextSnapshot(s, t.ops[o], Replacements(t, t.ops[o])))
  {
    var op := t.ops[o];
    ReadySnapshot(t, domains, o, s);
    var rs := Replacements(t, op);
    var next := NextSnapshot(s, op, rs);
    forall b | b in next.blocks
      ensures b.version in t.blocks && t.blocks[b.version] == b
      ensures |Domains(domains, ReceiptsOf(t, b.version))| >= PolicyOf(t, op.file).first
    {
      var i :| 0 <= i < |next.blocks| && next.blocks[i] == b;
      ReadyBlock(t, domains, o, s, i);
      assert DurableOk(t, domains, op.file);
      if b !in s.blocks {
        var j :| 0 <= j < |rs| && rs[j] == b;
        assert OpOk(t, o) && PartOk(t, o, op, op.parts[j]);
        assert op.parts[j].replacement == b.version;
      }
    }
  }

  /** Publishing it leaves every other fenced write on the file uncontested. */
  lemma ReadyRespects(t: Tables, domains: map<Id, Id>, o: Id, s: Snapshot, q: Id)
    requires Ready(t, domains, o) && Target(t, t.ops[o], s) && Rivals(t, domains, o, q)
    ensures Uncontested(Published(t, t.ops[o].file, NextSnapshot(s, t.ops[o], Replacements(t, t.ops[o]))), t.ops[q])
  {
    var op, other := t.ops[o], t.ops[q];
    ReadySnapshot(t, domains, o, s);
    RivalsApart(t, domains, o, q);
    FencedWriteCannotConflict(t, domains, o);
    FencedWriteCannotConflict(t, domains, q);
    var next := NextSnapshot(s, op, Replacements(t, op));
    GrowthApart(op, s, other);
    var t' := Published(t, op.file, next);
    assert Current(t', op.file) == next;
    forall k | 0 <= k < |other.parts|
      ensures BlockAt(next.blocks, other.parts[k].part.index, op.file) == other.parts[k].base
    {
      UntouchedSlot(op, s, Replacements(t, op), other, k);
    }
  }

  /** If the other write grows the file, this one does not. */
  lemma GrowthApart(op: Operation, s: Snapshot, other: Operation)
    requires op.Write? && other.Write? && WriteShape(op) && WriteShape(other) && !(op.growing && other.growing) && op.baseTotal <= s.total
    ensures other.growing ==> Max(s.total, Max(op.baseTotal, op.offset + |op.delta|)) == s.total
  {
  }

  /** A block that another write touches is not among this write's, nor does this write create it. */
  lemma UntouchedSlot(op: Operation, s: Snapshot, rs: seq<BlockRef>, other: Operation, k: nat)
    requires op.Write? && other.Write? && WriteShape(op) && WriteShape(other) && |rs| == |op.parts| && k < |other.parts|
    requires SnapshotOk(s) && s.blockSize == op.blockSize == other.blockSize && op.baseTotal <= s.total && other.baseTotal <= s.total
    requires (op.growing ==> s.total == op.baseTotal) && (other.growing ==> s.total == other.baseTotal) && !(op.growing && other.growing)
    requires forall j {:trigger op.parts[j]} :: 0 <= j < |op.parts| ==> op.parts[j].part.index != other.parts[k].part.index
    requires Div(op.offset, op.blockSize) <= |s.blocks|
    ensures var index := other.parts[k].part.index;
      BlockAt(Patched(s.blocks, Div(op.offset, op.blockSize), rs), index, op.file) == BlockAt(s.blocks, index, op.file)
  {
    var index, first := other.parts[k].part.index, Div(op.offset, op.blockSize);
    assert forall j {:trigger op.parts[j]} :: 0 <= j < |op.parts| ==> op.parts[j].part == PartAt(op.offset, |op.delta|, op.blockSize, j);
    assert other.parts[k].part == PartAt(other.offset, |other.delta|, other.blockSize, k);
    assert !(first <= index < first + |rs|) by {
      assert first <= index < first + |rs| ==> op.parts[index - first].part.index == index;
    }
    PartRange(op.offset, |op.delta|, op.blockSize);
    PartRange(other.offset, |other.delta|, other.blockSize);
    CeilDivMonotone(op.offset + |op.delta|, s.total, op.blockSize);
    CeilDivMonotone(other.offset + |other.delta|, s.total, op.blockSize);
  }

  lemma CeilDivMonotone(a: nat, b: nat, n: nat)
    requires n > 0
    ensures a <= b ==> CeilDiv(a, n) <= CeilDiv(b, n)
  {
    CeilDivBounds(a, n);
    CeilDivBounds(b, n);
    assert CeilDiv(b, n) < CeilDiv(a, n) <==> Mul(CeilDiv(b, n), n) < a;
  }
}
