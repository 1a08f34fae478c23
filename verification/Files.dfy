/** A file as its users see it: a handle reads the bytes of its snapshot. */
module Files {
  import opened Bytes
  import opened Layout
  import opened Tables
  import opened Leases
  import opened Handles
  import Runs
  import Reading

  /** The snapshot as the read path sees it. */
  function ReadView(s: Snapshot): Reading.Snapshot {
    Reading.Snapshot(s.blocks, s.blockSize, s.total)
  }

  /** What a read through handle i must yield. */
  ghost function Wanted(t: Tables, i: Id, offset: nat, length: nat): seq<byte>
    requires i in t.handles && t.handles[i].snapshot in t.snapshots
  {
    var content := Content(t.snapshots[t.handles[i].snapshot].blocks);
    var end := Min(offset + length, |content|);
    if offset < end then content[offset..end] else []
  }

  /** Every grant that the range needs is read to its end through its breaks. */
  ghost predicate Reachable(t: Tables, i: Id, offset: nat, length: nat, breaks: nat -> seq<Reading.Break>)
    requires i in t.handles && t.handles[i].snapshot in t.snapshots
  {
    var s := ReadView(t.snapshots[t.handles[i].snapshot]);
    Reading.Valid(s) && Reading.AllSurvive(s, offset, length, breaks, Reading.Meets(s, offset, length))
  }

  /** A read through a live handle that is open for reading: it succeeds exactly if the range and the limit are sound
      and every block of the range can be reached, and then has yielded exactly the bytes of the range in the handle's
      own snapshot, which may be older than the file's; if a node fails for good, it has yielded a prefix of them. */
  method Read(tx: Transaction, session: Id, i: Id, offset: nat, length: nat, limit: nat, breaks: nat -> seq<Reading.Break>)
    returns (bytes: seq<byte>, r: Result<()>)
    requires tx.Valid()
    ensures HandleFault(tx.t, session, i) != None || !Reads(tx.t.handles[i].mode) ==> r.Err? && bytes == []
    ensures HandleFault(tx.t, session, i) == None && Reads(tx.t.handles[i].mode) ==>
      && bytes <= Wanted(tx.t, i, offset, length)
      && (r.Ok? <==> CheckedRange(offset, length) && 1 <= limit <= Reading.PAGE_LIMIT && Reachable(tx.t, i, offset, length, breaks))
      && (r.Ok? ==> bytes == Wanted(tx.t, i, offset, length))
      && (r.Err? ==> r.reason == if CheckedRange(offset, length) && 1 <= limit <= Reading.PAGE_LIMIT then DataUnavailable else InvalidArgument)
  {
    var fault := HandleFault(tx.t, session, i);
    if fault.Some? {
      return [], Err(fault.value);
    }
    if !Reads(tx.t.handles[i].mode) {
      return [], Err(PermissionDenied);
    }
    Runs.HandlesRead(tx.t, tx.domains, i, 0);
    var s := tx.t.snapshots[tx.t.handles[i].snapshot];
    ContentBlock(s.blocks, s.blockSize, s.total, 0);
    var outcome;
    bytes, outcome := Reading.IterRead(ReadView(s), offset, length, limit, breaks);
    r := match outcome
      case Ok(_) => Ok(())
      case Err(reason) => Err(if reason == Reading.InvalidArgument then InvalidArgument else DataUnavailable);
  }

  /** A file that nothing happens to on the way is read. */
  lemma Reached(tx: Transaction, session: Id, i: Id, offset: nat, length: nat, breaks: nat -> seq<Reading.Break>)
    requires tx.Valid() && HandleFault(tx.t, session, i) == None && forall j :: breaks(j) == []
    ensures Reachable(tx.t, i, offset, length, breaks)
  {
    Runs.HandlesRead(tx.t, tx.domains, i, 0);
    Reading.Unbroken(ReadView(tx.t.snapshots[tx.t.handles[i].snapshot]), offset, length, breaks);
  }
}
