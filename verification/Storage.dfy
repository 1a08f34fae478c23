/** The DataNode's space: reservations taken before a write, inventory taken after it, and what a crash does to both. */
module Storage {
  import opened Bytes
  import opened Layout
  import Container

  type Result<T> = Outcome<T, Reason>

  datatype Reason = LockBusy | NoSpace | AlreadyExists | InvalidArgument | ChecksumMismatch | VersionConflict

  /** How far a write has come: reserved, its object on disk, its object in the inventory. */
  datatype Stage = Reserved | Persisted | Recorded

  /** A write or copy at work on a block: it has reserved the block's storage cost. */
  datatype Job = Job(block: BlockRef, stage: Stage)

  const SPARE: nat := 1048576

  ghost function Sum(m: map<Id, nat>): nat {
    if m == map[] then 0 else var k :| k in m; m[k] + Sum(m - {k})
  }

  lemma {:induction false} SumRemove(m: map<Id, nat>, k: Id)
    requires k in m
    ensures Sum(m) == m[k] + Sum(m - {k})
    decreases |m|
  {
    var j :| j in m && Sum(m) == m[j] + Sum(m - {j});
    if j != k {
      SumRemove(m - {j}, k);
      SumRemove(m - {k}, j);
      assert m - {j} - {k} == m - {k} - {j};
    }
  }

  /** Putting k under a new value changes the sum by the difference. */
  lemma SumUpdate(m: map<Id, nat>, k: Id, v: nat)
    ensures Sum(m[k := v]) == Sum(m) - (if k in m then m[k] else 0) + v
  {
    SumRemove(m[k := v], k);
    if k in m {
      SumRemove(m, k);
    }
    assert m[k := v] - {k} == m - {k};
    if k !in m {
      assert m - {k} == m;
    }
  }

  lemma SumDrop(m: map<Id, nat>, k: Id)
    ensures Sum(m - {k}) == Sum(m) - (if k in m then m[k] else 0)
  {
    if k in m {
      SumRemove(m, k);
    } else {
      assert m - {k} == m;
    }
  }

  lemma {:induction false} SumMonotone(a: map<Id, nat>, b: map<Id, nat>)
    requires forall k :: k in a ==> k in b && a[k] <= b[k]
    ensures Sum(a) <= Sum(b)
    decreases |a|
  {
    if a != map[] {
      var k :| k in a;
      SumRemove(a, k);
      SumRemove(b, k);
      SumMonotone(a - {k}, b - {k});
    }
  }

  lemma UnionDrop(a: map<Id, nat>, b: map<Id, nat>, k: Id)
    requires k !in a && k in b
    ensures (a + b) - {k} == a + (b - {k}) && (a + b)[k] == b[k]
  {
  }

  lemma {:induction false} SumUnion(a: map<Id, nat>, b: map<Id, nat>)
    requires a.Keys !! b.Keys
    ensures Sum(a + b) == Sum(a) + Sum(b)
    decreases |b|
  {
    if b == map[] {
      assert a + b == a;
    } else {
      var k :| k in b;
      var rest := b - {k};
      UnionDrop(a, b, k);
      SumUnion(a, rest);
      SumRemove(b, k);
      SumRemove(a + b, k);
    }
  }

  method Total(m: map<Id, nat>) returns (n: nat)
    ensures n == Sum(m)
  {
    n := 0;
    var left := m;
    while left != map[]
      invariant n + Sum(left) == Sum(m)
      decreases left.Keys
    {
      var k :| k in left;
      SumRemove(left, k);
      n, left := n + left[k], left - {k};
    }
  }

  function Cost(j: Job): nat {
    Container.StorageCost(j.block.size)
  }

  function Amounts(jobs: map<Id, Job>): map<Id, nat> {
    map b | b in jobs :: Cost(jobs[b])
  }

  /** The reservations of writes that are not in the inventory yet. */
  function Outstanding(jobs: map<Id, Job>): map<Id, nat> {
    map b | b in jobs && jobs[b].stage != Recorded :: Cost(jobs[b])
  }

  lemma MovesOn(jobs: map<Id, Job>, b: Id, stage: Stage)
    requires b in jobs && jobs[b].stage != Recorded
    ensures var after := jobs[b := jobs[b].(stage := stage)];
      Amounts(after) == Amounts(jobs) && Outstanding(after) == (if stage == Recorded then Outstanding(jobs) - {b} else Outstanding(jobs))
  {
  }

  lemma ReservedSums(jobs: map<Id, Job>, block: BlockRef)
    requires block.version !in jobs
    ensures var after, amount := jobs[block.version := Job(block, Reserved)], Container.StorageCost(block.size);
      && Sum(Amounts(after)) == Sum(Amounts(jobs)) + amount && Sum(Outstanding(after)) == Sum(Outstanding(jobs)) + amount
      && Sum(Outstanding(jobs)) <= Sum(Amounts(jobs))
  {
    var after, b, amount := jobs[block.version := Job(block, Reserved)], block.version, Container.StorageCost(block.size);
    assert Amounts(after) == Amounts(jobs)[b := amount] && Outstanding(after) == Outstanding(jobs)[b := amount];
    SumUpdate(Amounts(jobs), b, amount);
    SumUpdate(Outstanding(jobs), b, amount);
    SumMonotone(Outstanding(jobs), Amounts(jobs));
  }

  /** The frames of a stream that carries a block in full chunks. */
  predicate FullFrames(chunks: seq<seq<byte>>, size: nat) {
    forall i {:trigger chunks[i]} :: 0 <= i < |chunks| ==> |chunks[i]| > 0 && |chunks[i]| == Min(CHUNK, size - Mul(i, CHUNK))
  }

  class DataNode {
    const capacity: nat
    /** The bytes of the objects that the inventory lists, and of those set aside. */
    var inventory: map<Id, nat>
    var quarantine: map<Id, nat>
    var objects: map<Id, Container.Object>
    /** Exclusive pins are held by jobs, the others by readers. */
    var jobs: map<Id, Job>
    var readers: map<Id, nat>
    var reserved: nat

    /** What is inventoried, and what is reserved for objects that are not, fits the node. */
    ghost predicate Valid()
      reads this
    {
      && reserved == Sum(Amounts(jobs))
      && Sum(inventory) + Sum(quarantine) + Sum(Outstanding(jobs)) <= capacity
      && JobsOk()
    }

    ghost predicate JobsOk()
      reads this
    {
      && (forall b :: b in jobs ==> jobs[b].block.version == b)
      && (forall b :: b in jobs && jobs[b].stage == Persisted ==> b in objects && Container.Size(objects[b]) <= Cost(jobs[b]))
      && (forall b :: b in jobs && jobs[b].stage == Recorded ==> b in inventory)
    }

    /** Readable objects that neither the inventory nor the write that has just stored them accounts for. */
    ghost function Abandoned(): map<Id, nat>
      reads this
    {
      map b | b in objects && b !in inventory && Container.Readable(objects[b]) && !(b in jobs && jobs[b].stage == Persisted) ::
        Container.Size(objects[b])
    }

    /** Readable objects that the inventory does not list. */
    function Unindexed(): map<Id, nat>
      reads this
    {
      map b | b in objects && b !in inventory && Container.Readable(objects[b]) :: Container.Size(objects[b])
    }

    constructor (capacity: nat)
      ensures Valid() && this.capacity == capacity
      ensures inventory == map[] && quarantine == map[] && objects == map[] && jobs == map[] && readers == map[] && reserved == 0
    {
      this.capacity := capacity;
      inventory, quarantine, objects, jobs, readers, reserved := map[], map[], map[], map[], map[], 0;
      new;
      assert Amounts(jobs) == map[] && Outstanding(jobs) == map[];
    }

    method Used() returns (n: nat)
      ensures n == Sum(inventory) + Sum(quarantine)
    {
      var a := Total(inventory);
      var b := Total(quarantine);
      n := a + b;
    }

    // -------------------------------------------------------------- pins

    /** pin for reading: any number of readers, but none beside a writer. */
    method PinReader(b: Id) returns (r: Result<()>)
      requires Valid()
      modifies this`readers
      ensures Valid() && (r.Ok? <==> b !in jobs)
      ensures readers == if r.Ok? then old(readers)[b := (if b in old(readers) then old(readers)[b] else 0) + 1] else old(readers)
    {
      if b in jobs {
        return Err(LockBusy);
      }
      readers := readers[b := (if b in readers then readers[b] else 0) + 1];
      return Ok(());
    }

    method UnpinReader(b: Id)
      requires Valid() && b in readers
      modifies this`readers
      ensures Valid() && readers == if old(readers)[b] <= 1 then old(readers) - {b} else old(readers)[b := (old(readers)[b] - 1) as nat]
    {
      readers := if readers[b] <= 1 then readers - {b} else readers[b := readers[b] - 1];
    }

    /** An exclusive pin can be had: nobody reads the block and no write is at work on it. */
    predicate Unpinned(b: Id)
      reads this
    {
      b !in jobs && b !in readers
    }

    // -------------------------------------------------------------- writes

    /** reserve, under the block's exclusive pin: exactly if the pin can be had, everything used and reserved leaves
        room for its cost, and the disk has that room and some to spare. */
    method Reserve(block: BlockRef, free: nat) returns (r: Result<()>)
      requires Valid()
      modifies this`jobs, this`reserved
      ensures Valid()
      ensures r.Ok? <==>
        && old(Unpinned(block.version))
        && Sum(inventory) + Sum(quarantine) + old(reserved) + Container.StorageCost(block.size) <= capacity
        && old(reserved) + Container.StorageCost(block.size) + SPARE <= free
      ensures r.Ok? ==> jobs == old(jobs)[block.version := Job(block, Reserved)] && reserved == old(reserved) + Container.StorageCost(block.size)
      ensures r.Err? ==> jobs == old(jobs) && reserved == old(reserved)
    {
      var b := block.version;
      if !Unpinned(b) {
        return Err(LockBusy);
      }
      var used := Used();
      var amount := Container.StorageCost(block.size);
      if !(used + reserved + amount <= capacity && reserved + amount + SPARE <= free) {
        return Err(NoSpace);
      }
      ReservedSums(jobs, block);
      jobs, reserved := jobs[b := Job(block, Reserved)], reserved + amount;
      return Ok(());
    }

    /** A client's stream is sealed and reaches the disk: exactly if its frames are full chunks that spell the block,
        and there is no object yet. headerLength is what put's header takes. */
    method Persist(b: Id, headerLength: nat, chunks: seq<seq<byte>>) returns (r: Result<()>)
      requires Valid() && b in jobs && jobs[b].stage == Reserved && headerLength <= 4084
      modifies this`objects, this`jobs
      ensures Valid()
      ensures r.Ok? <==>
        && CutsAt(chunks, old(jobs)[b].block.plain, CHUNK) && |old(jobs)[b].block.plain| == old(jobs)[b].block.size
        && b !in old(objects)
      ensures r.Ok? ==> objects == old(objects)[b := Container.Object(old(jobs)[b].block, headerLength, Container.Seal(old(jobs)[b].block, chunks))]
      ensures r.Ok? ==> jobs == old(jobs)[b := old(jobs)[b].(stage := Persisted)]
      ensures r.Err? ==> objects == old(objects) && jobs == old(jobs)
    {
      var block := jobs[b].block;
      FramesAreCuts(chunks, block.plain, block.size);
      var full := CheckFrames(chunks, block.size);
      if !full {
        return Err(InvalidArgument);
      }
      var made := Container.Put(block, headerLength, chunks);
      if made.Err? {
        return Err(ChecksumMismatch);
      }
      assert Container.MadeOf(made.value, chunks);
      r := Place(b, made.value, chunks);
    }

    /** A copy's object comes as its source node made it. */
    method Place(b: Id, o: Container.Object, ghost chunks: seq<seq<byte>>) returns (r: Result<()>)
      requires Valid() && b in jobs && jobs[b].stage == Reserved && o.block == jobs[b].block && Container.MadeOf(o, chunks)
      modifies this`objects, this`jobs
      ensures Valid()
      ensures r.Ok? <==> b !in old(objects)
      ensures r.Ok? ==> objects == old(objects)[b := o] && jobs == old(jobs)[b := old(jobs)[b].(stage := Persisted)]
      ensures r.Err? ==> r.reason == AlreadyExists && objects == old(objects) && jobs == old(jobs)
    {
      if b in objects {
        return Err(AlreadyExists);
      }
      Container.MadeFits(o, chunks);
      MovesOn(jobs, b, Persisted);
      objects, jobs := objects[b := o], jobs[b := jobs[b].(stage := Persisted)];
      return Ok(());
    }

    /** The inventory's transaction: from here on the object is counted where it is, not as a reservation. */
    method Record(b: Id)
      requires Valid() && b in jobs && jobs[b].stage == Persisted
      modifies this`inventory, this`jobs
      ensures Valid() && inventory == old(inventory)[b := Container.Size(objects[b])]
      ensures jobs == old(jobs)[b := old(jobs)[b].(stage := Recorded)]
    {
      RecordedFits(b);
      inventory, jobs := inventory[b := Container.Size(objects[b])], jobs[b := jobs[b].(stage := Recorded)];
    }

    lemma RecordedFits(b: Id)
      requires Valid() && b in jobs && jobs[b].stage == Persisted
      ensures var after := jobs[b := jobs[b].(stage := Recorded)];
        && reserved == Sum(Amounts(after))
        && Sum(inventory[b := Container.Size(objects[b])]) + Sum(quarantine) + Sum(Outstanding(after)) <= capacity
    {
      MovesOn(jobs, b, Recorded);
      SumDrop(Outstanding(jobs), b);
      SumUpdate(inventory, b, Container.Size(objects[b]));
    }

    /** finally: the reservation is given back, however far the write has come. */
    method Finish(b: Id)
      requires Valid() && b in jobs
      modifies this`jobs, this`reserved
      ensures Valid() && jobs == old(jobs) - {b} && reserved == old(reserved) - Cost(old(jobs)[b])
    {
      assert Amounts(jobs - {b}) == Amounts(jobs) - {b} && Outstanding(jobs - {b}) == Outstanding(jobs) - {b};
      SumDrop(Amounts(jobs), b);
      SumDrop(Outstanding(jobs), b);
      jobs, reserved := jobs - {b}, reserved - Cost(jobs[b]);
    }

    // -------------------------------------------------------------- what else happens to objects

    /** A retired block is deleted, exactly if its exclusive pin can be had and its record, if there is one, is the
        receipt that is to go; expected says so. */
    method DeleteRetired(b: Id, expected: bool) returns (r: Result<()>)
      requires Valid()
      modifies this`objects, this`inventory
      ensures Valid()
      ensures r.Ok? <==> Unpinned(b) && (b in old(inventory) ==> expected)
      ensures r.Ok? ==> objects == old(objects) - {b} && inventory == old(inventory) - {b}
      ensures r.Err? ==> objects == old(objects) && inventory == old(inventory)
    {
      if !Unpinned(b) {
        return Err(LockBusy);
      }
      if b in inventory && !expected {
        return Err(VersionConflict);
      }
      SumDrop(inventory, b);
      objects, inventory := objects - {b}, inventory - {b};
      return Ok(());
    }

    /** A damaged copy is set aside: it no longer counts as a block, but its bytes still count. */
    method SetAside(b: Id, receipt: Id) returns (r: Result<()>)
      requires Valid() && b in inventory && receipt !in quarantine
      modifies this`objects, this`inventory, this`quarantine
      ensures Valid() && (r.Ok? <==> Unpinned(b))
      ensures r.Ok? ==> inventory == old(inventory) - {b} && quarantine == old(quarantine)[receipt := old(inventory)[b]]
      ensures r.Ok? ==> objects == old(objects) - {b}
      ensures r.Err? ==> inventory == old(inventory) && quarantine == old(quarantine) && objects == old(objects)
    {
      if !Unpinned(b) {
        return Err(LockBusy);
      }
      SumDrop(inventory, b);
      SumUpdate(quarantine, receipt, inventory[b]);
      objects, quarantine, inventory := objects - {b}, quarantine[receipt := inventory[b]], inventory - {b};
      return Ok(());
    }

    /** The disk damages an object: its file is as long as before. */
    method Decay(b: Id, o: Container.Object)
      requires Valid() && b in objects && Container.Size(o) == Container.Size(objects[b])
      modifies this`objects
      ensures Valid() && objects == old(objects)[b := o]
    {
      objects := objects[b := o];
    }

    // -------------------------------------------------------------- recovery

    /** The node crashes and starts again: pins and reservations are gone, and every readable object that the inventory
        does not list is taken in. If no object was abandoned, the node still is within its capacity. In any case it
        is exactly if what was inventoried and those objects fit. */
    method CrashAndRecover()
      modifies this`inventory, this`jobs, this`readers, this`reserved
      ensures jobs == map[] && readers == map[] && reserved == 0
      ensures inventory == old(inventory) + old(Unindexed())
      ensures old(Valid()) && old(Abandoned()) == map[] ==> Valid()
      ensures Valid() <==> Sum(old(inventory)) + Sum(quarantine) + Sum(old(Unindexed())) <= capacity
    {
      ghost var before, unindexed := inventory, Unindexed();
      if Valid() && Abandoned() == map[] {
        UnindexedIsOutstanding();
      }
      jobs, readers, reserved := map[], map[], 0;
      TakeIn();
      SumUnion(before, unindexed);
      assert Amounts(jobs) == map[] && Outstanding(jobs) == map[];
    }

    /** recover_unindexed_objects. */
    method TakeIn()
      modifies this`inventory
      ensures inventory == old(inventory) + old(Unindexed())
    {
      ghost var before, unindexed := inventory, Unindexed();
      var left := objects.Keys;
      while left != {}
        invariant left <= objects.Keys
        invariant forall b :: b in inventory <==> b in before || (b in unindexed && b !in left)
        invariant forall b :: b in inventory ==> inventory[b] == if b in before then before[b] else unindexed[b]
      {
        var b :| b in left;
        left := left - {b};
        if b !in inventory {
          var plain := Container.ReadVerified(objects[b], objects[b].block);
          if plain.Ok? {
            inventory := inventory[b := Container.Size(objects[b])];
          }
        }
      }
      assert inventory == before + unindexed;
    }

    /** If no object is abandoned, each unlisted one still is covered by its write's reservation. */
    lemma UnindexedIsOutstanding()
      requires Valid() && Abandoned() == map[]
      ensures Sum(Unindexed()) <= Sum(Outstanding(jobs))
    {
      forall b | b in Unindexed() ensures b in jobs && jobs[b].stage == Persisted && Container.Size(objects[b]) <= Cost(jobs[b]) {
        assert b !in Abandoned();
      }
      SumMonotone(Unindexed(), Outstanding(jobs));
    }
  }

  method CheckFrames(chunks: seq<seq<byte>>, size: nat) returns (full: bool)
    ensures full <==> FullFrames(chunks, size)
  {
    var i := 0;
    while i < |chunks|
      invariant 0 <= i <= |chunks| && FullFrames(chunks[..i], size)
    {
      if !(|chunks[i]| > 0 && |chunks[i]| == Min(CHUNK, size - Mul(i, CHUNK))) {
        return false;
      }
      i := i + 1;
    }
    assert chunks[..i] == chunks;
    return true;
  }

  lemma {:induction false} FramesPrefix(chunks: seq<seq<byte>>, size: nat, m: nat)
    requires FullFrames(chunks, size) && m <= |chunks|
    ensures |Flatten(chunks[..m])| == Min(Mul(m, CHUNK), size)
  {
    if m > 0 {
      var k := m - 1;
      FramesPrefix(chunks, size, k);
      assert chunks[..m] == chunks[..k] + [chunks[k]];
      FlattenSnoc(chunks[..k], chunks[k]);
      assert Mul(m, CHUNK) == Mul(k, CHUNK) + CHUNK;
    }
  }

  lemma FrameIsCut(chunks: seq<seq<byte>>, size: nat, k: nat)
    requires FullFrames(chunks, size) && |Flatten(chunks)| == size && k < |chunks|
    ensures Mul(k, CHUNK) < size && IsCut(chunks[k], Flatten(chunks), CHUNK, k)
  {
    FramesPrefix(chunks, size, k);
    assert |chunks[k]| == Min(CHUNK, size - Mul(k, CHUNK));
    MiddlePiece(chunks, k);
  }

  lemma MiddlePiece(chunks: seq<seq<byte>>, k: nat)
    requires k < |chunks|
    ensures var low := |Flatten(chunks[..k])|; low + |chunks[k]| <= |Flatten(chunks)| && Flatten(chunks)[low..low + |chunks[k]|] == chunks[k]
  {
    assert chunks == (chunks[..k] + [chunks[k]]) + chunks[k + 1..];
    FlattenConcat(chunks[..k] + [chunks[k]], chunks[k + 1..]);
    FlattenSnoc(chunks[..k], chunks[k]);
  }

  /** Frames of full chunks that spell a block are its cuts. */
  lemma FramesAreCuts(chunks: seq<seq<byte>>, plain: seq<byte>, size: nat)
    ensures CutsAt(chunks, plain, CHUNK) && |plain| == size <==> FullFrames(chunks, size) && Flatten(chunks) == plain && |plain| == size
    ensures CutsAt(chunks, plain, CHUNK) ==> Chunked(chunks)
  {
    CeilDivBounds(|plain|, CHUNK);
    if CutsAt(chunks, plain, CHUNK) {
      CutsFlatten(chunks, plain, CHUNK);
      Container.CutsChunked(chunks, plain);
      forall i | 0 <= i < |chunks| && |plain| == size ensures |chunks[i]| > 0 && |chunks[i]| == Min(CHUNK, size - Mul(i, CHUNK)) {
        assert IsCut(chunks[i], plain, CHUNK, i) && Mul(i, CHUNK) < |plain|;
      }
    }
    if FullFrames(chunks, size) && Flatten(chunks) == plain && |plain| == size {
      forall k | 0 <= k < |chunks| ensures IsCut(chunks[k], plain, CHUNK, k) && Mul(k, CHUNK) < size {
        FrameIsCut(chunks, size, k);
      }
      FramesPrefix(chunks, size, |chunks|);
      assert chunks[..|chunks|] == chunks;
    }
  }

  // ---------------------------------------------------------------- reservations do not survive every crash

  /** A block of 10000 zeros. */
  function Zeros(version: Id): BlockRef {
    BlockRef(1, version, 0, 10000, seq(10000, _ => 0))
  }

  /** Its object: put's header takes 430 bytes. */
  function Stored(version: Id): Container.Object {
    Container.Object(Zeros(version), 430, Container.Seal(Zeros(version), [Zeros(version).plain]))
  }

  lemma SumOne(k: Id, v: nat)
    ensures Sum(map[k := v]) == v
  {
    SumRemove(map[k := v], k);
    assert map[k := v] - {k} == map[];
  }

  lemma ZerosFit(version: Id)
    ensures var chunks := [Zeros(version).plain];
      CutsAt(chunks, Zeros(version).plain, CHUNK) && Container.MadeOf(Stored(version), chunks)
    ensures Container.StorageCost(10000) == 14116 && Container.Size(Stored(version)) == 10462 && Container.Readable(Stored(version))
  {
    var b := Zeros(version);
    assert Mul(0, CHUNK) == 0 && IsCut(b.plain, b.plain, CHUNK, 0);
    CeilDivUnique(10000, 0, CHUNK);
    Container.SealLengths(b, [b.plain], 1);
    assert [b.plain][..1] == [b.plain] && Container.Seal(b, [b.plain])[..1] == Container.Seal(b, [b.plain]);
    assert Flatten([b.plain]) == b.plain;
    assert Chunked([b.plain]);
    Container.PutThenRead(b, 430, [b.plain]);
  }

  /** The only write at work gets its object on disk. */
  method StoreBlock(node: DataNode, block: BlockRef, headerLength: nat, chunks: seq<seq<byte>>)
    requires node.Valid() && node.jobs == map[block.version := Job(block, Reserved)] && block.version !in node.objects
    requires headerLength <= 4084 && CutsAt(chunks, block.plain, CHUNK) && |block.plain| == block.size
    modifies node`objects, node`jobs
    ensures node.Valid() && node.jobs == map[block.version := Job(block, Persisted)]
    ensures node.objects == old(node.objects)[block.version := Container.Object(block, headerLength, Container.Seal(block, chunks))]
  {
    assert node.jobs[block.version] == Job(block, Reserved);
    var stored := node.Persist(block.version, headerLength, chunks);
  }

  method ReserveIdle(node: DataNode, block: BlockRef)
    requires node.Valid() && node.jobs == map[] && node.readers == map[] && node.reserved == 0
    requires Sum(node.inventory) + Sum(node.quarantine) + Container.StorageCost(block.size) <= node.capacity
    modifies node`jobs, node`reserved
    ensures node.Valid() && node.jobs == map[block.version := Job(block, Reserved)]
  {
    var reserved := node.Reserve(block, Container.StorageCost(block.size) + SPARE);
    assert node.jobs == map[block.version := Job(block, Reserved)];
  }

  method StoreZeros(node: DataNode, version: Id)
    requires node.Valid() && node.jobs == map[] && node.readers == map[] && node.reserved == 0 && version !in node.objects
    requires Sum(node.inventory) + Sum(node.quarantine) + 14116 <= node.capacity
    modifies node`objects, node`jobs, node`reserved
    ensures node.Valid() && node.objects == old(node.objects)[version := Stored(version)]
    ensures node.jobs.Keys == {version} && node.jobs[version].stage == Persisted
  {
    ZerosFit(version);
    ReserveIdle(node, Zeros(version));
    StoreBlock(node, Zeros(version), 430, [Zeros(version).plain]);
  }

  /** A write whose object is stored but whose inventory transaction fails: the reservation is given back, the
      object stays. */
  method AbandonedWrite() returns (node: DataNode)
    ensures fresh(node) && node.Valid() && node.capacity == 15000 && node.readers == map[]
    ensures node.objects == map[1 := Stored(1)] && node.inventory == map[] && node.quarantine == map[] && node.jobs == map[] && node.reserved == 0
  {
    node := new DataNode(15000);
    StoreZeros(node, 1);
    GiveBack(node, 1);
  }

  /** The only write at work ends. */
  method GiveBack(node: DataNode, b: Id)
    requires node.Valid() && node.jobs.Keys == {b}
    modifies node`jobs, node`reserved
    ensures node.Valid() && node.jobs == map[] && node.reserved == 0
  {
    node.Finish(b);
    assert node.jobs == map[];
    assert Amounts(node.jobs) == map[];
  }

  /** The next write is let in, as nothing accounts for the first one's object. */
  method WriteBeside() returns (node: DataNode)
    ensures fresh(node) && node.Valid() && node.capacity == 15000
    ensures node.objects == map[1 := Stored(1), 2 := Stored(2)] && node.inventory == map[2 := 10462] && node.jobs == map[]
  {
    node := AbandonedWrite();
    StoreZeros(node, 2);
    ZerosFit(2);
    CompleteBlock(node, 2);
  }

  /** The inventory's transaction goes through, and the write ends. */
  method CompleteBlock(node: DataNode, b: Id)
    requires node.Valid() && node.jobs.Keys == {b} && node.jobs[b].stage == Persisted
    modifies node`inventory, node`jobs, node`reserved
    ensures node.Valid() && node.jobs == map[]
    ensures node.inventory == old(node.inventory)[b := Container.Size(node.objects[b])]
  {
    node.Record(b);
    GiveBack(node, b);
  }

  /** So the bound does not survive every crash: recovery counts both objects. */
  method Overcommit() returns (node: DataNode)
    ensures !node.Valid() && Sum(node.inventory) > node.capacity
  {
    node := WriteBeside();
    ZerosFit(1);
    assert node.Unindexed() == map[1 := 10462];
    SumOne(1, 10462);
    SumOne(2, 10462);
    node.CrashAndRecover();
    SumUnion(map[2 := 10462], map[1 := 10462]);
  }
}
