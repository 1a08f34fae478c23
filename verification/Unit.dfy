/** The unit of work over the shared metadata: pending changes over a root of shards of records. It refines a plain map
    from kind and identity to record: reads see the changes over the root, and flushing gives the root of the new map. */
module Unit {
  import opened Bytes
  import Pages
  import Publication

  type Key = Publication.Key

  /** An encoded record. */
  type Text = Publication.Text

  /** The digest of an object's blob. Encodings are injective and blobs can be read back (Pages.PageStore.SaveAndLoad),
      so a digest is written as the object it stands for. */
  datatype Blob<T> = Blob(value: T)

  type Bucket = map<string, Blob<Text>>

  type Root = map<string, map<nat, Blob<Bucket>>>

  /** The bucket that a root has for a shard; a missing one is empty. */
  function BucketOf(root: Root, kind: string, shard: nat): Bucket {
    if kind in root && shard in root[kind] then root[kind][shard].value else map[]
  }

  /** The record that a root holds under a kind and an identity. */
  function Lookup(root: Root, shardOf: string -> nat, kind: string, i: string): Option<Text> {
    Cell(BucketOf(root, kind, shardOf(i)), i)
  }

  /** Every identity is in the shard of its hash. */
  ghost predicate WellSharded(root: Root, shardOf: string -> nat) {
    forall kind, shard, i :: kind in root && shard in root[kind] && i in root[kind][shard].value ==> shardOf(i) == shard
  }

  function Cell(bucket: Bucket, i: string): Option<Text> {
    if i in bucket then Some(bucket[i].value) else None
  }

  // ---------------------------------------------------------------- pages of a root

  /** The texts of a bucket and of a root, which name the digests of their parts. */
  datatype Codec = Codec(bucket: map<string, Pages.Page> -> seq<byte>, root: map<string, map<nat, Pages.Page>> -> seq<byte>)

  function BucketText(c: Codec, bucket: Bucket): seq<byte> {
    c.bucket(map i | i in bucket :: Pages.Tree(bucket[i].value))
  }

  function RootText(c: Codec, root: Root): seq<byte> {
    c.root(map kind | kind in root :: BucketTrees(c, root[kind]))
  }

  function BucketTrees(c: Codec, shards: map<nat, Blob<Bucket>>): map<nat, Pages.Page> {
    map shard | shard in shards :: Pages.Tree(BucketText(c, shards[shard].value))
  }

  /** The pages that a bucket reaches: its own, and those of its records. */
  function BucketPages(c: Codec, bucket: Bucket): set<Pages.Page> {
    Pages.Nodes(Pages.Tree(BucketText(c, bucket))) + set i, q | i in bucket && q in Pages.Nodes(Pages.Tree(bucket[i].value)) :: q
  }

  /** The pages that a root reaches: its own, and those of its buckets. */
  function RootPages(c: Codec, root: Root): set<Pages.Page> {
    Pages.Nodes(Pages.Tree(RootText(c, root))) + ShardPages(c, root)
  }

  function ShardPages(c: Codec, root: Root): set<Pages.Page> {
    set kind, shard, q | kind in root && shard in root[kind] && q in BucketPages(c, root[kind][shard].value) :: q
  }

  // ---------------------------------------------------------------- what a flush makes of a root

  /** What a bucket must hold for an identity after these changes. */
  function Slot(base: Root, shardOf: string -> nat, changes: Publication.Changes, b: (string, nat), i: string): Option<Text> {
    if Publication.Key(b.0, i) in changes && shardOf(i) == b.1 then changes[Publication.Key(b.0, i)] else Cell(BucketOf(base, b.0, b.1), i)
  }

  function NewBucket(base: Root, shardOf: string -> nat, changes: Publication.Changes, b: (string, nat)): Bucket {
    map i | i in BucketOf(base, b.0, b.1).Keys + (set k | k in changes && k.kind == b.0 :: k.id) && Slot(base, shardOf, changes, b, i).Some? ::
      Blob(Slot(base, shardOf, changes, b, i).value)
  }

  /** The buckets that these changes do change. */
  function Changed(base: Root, shardOf: string -> nat, changes: Publication.Changes, keys: set<Key>): set<(string, nat)> {
    set k | k in changes && k in keys && changes[k] != Lookup(base, shardOf, k.kind, k.id) :: (k.kind, shardOf(k.id))
  }

  function ShardsOf(base: Root, done: set<(string, nat)>, kind: string): set<nat> {
    (if kind in base then base[kind].Keys else {}) + set b | b in done && b.0 == kind :: b.1
  }

  /** The root with these buckets put in. */
  function Overlaid(base: Root, done: set<(string, nat)>, buckets: map<(string, nat), Bucket>): Root
    requires done <= buckets.Keys
  {
    map kind | kind in base.Keys + (set b | b in done :: b.0) :: OverlaidShards(base, done, buckets, kind)
  }

  function OverlaidShards(base: Root, done: set<(string, nat)>, buckets: map<(string, nat), Bucket>, kind: string): map<nat, Blob<Bucket>>
    requires done <= buckets.Keys
  {
    map shard | shard in ShardsOf(base, done, kind) :: if (kind, shard) in done then Blob(buckets[(kind, shard)]) else base[kind][shard]
  }

  function FlushedRoot(base: Root, shardOf: string -> nat, changes: Publication.Changes): Root {
    var changed := Changed(base, shardOf, changes, changes.Keys);
    Overlaid(base, changed, map b | b in changed :: NewBucket(base, shardOf, changes, b))
  }

  lemma OverlaidBucket(base: Root, done: set<(string, nat)>, buckets: map<(string, nat), Bucket>, kind: string, shard: nat)
    requires done <= buckets.Keys
    ensures BucketOf(Overlaid(base, done, buckets), kind, shard) == if (kind, shard) in done then buckets[(kind, shard)] else BucketOf(base, kind, shard)
  {
    if (kind, shard) in done {
      assert kind in (set b | b in done :: b.0) && shard in (set b | b in done && b.0 == kind :: b.1);
    }
  }

  /** The flushed root holds the base's map, overridden by the changes. */
  lemma FlushedLookup(base: Root, shardOf: string -> nat, changes: Publication.Changes, key: Key)
    ensures Lookup(FlushedRoot(base, shardOf, changes), shardOf, key.kind, key.id)
      == if key in changes then changes[key] else Lookup(base, shardOf, key.kind, key.id)
  {
    var changed := Changed(base, shardOf, changes, changes.Keys);
    var b: (string, nat) := (key.kind, shardOf(key.id));
    OverlaidBucket(base, changed, map b | b in changed :: NewBucket(base, shardOf, changes, b), key.kind, shardOf(key.id));
    assert key == Publication.Key(b.0, key.id);
    NewCell(base, shardOf, changes, b, key.id);
  }

  lemma NewCell(base: Root, shardOf: string -> nat, changes: Publication.Changes, b: (string, nat), i: string)
    ensures Cell(NewBucket(base, shardOf, changes, b), i) == Slot(base, shardOf, changes, b, i)
  {
    if Publication.Key(b.0, i) in changes {
      assert i in (set k | k in changes && k.kind == b.0 :: k.id);
    }
  }

  /** Every identity is in the shard of its hash. */
  lemma FlushedSharded(base: Root, shardOf: string -> nat, changes: Publication.Changes)
    requires WellSharded(base, shardOf)
    ensures WellSharded(FlushedRoot(base, shardOf, changes), shardOf)
  {
    var root: Root := FlushedRoot(base, shardOf, changes);
    forall kind: string, shard: nat, i: string | kind in root && shard in root[kind] && i in root[kind][shard].value ensures shardOf(i) == shard {
      var b: (string, nat) := (kind, shard);
      if b in Changed(base, shardOf, changes, changes.Keys) {
        NewCell(base, shardOf, changes, b, i);
        assert i in BucketOf(base, kind, shard) || shardOf(i) == shard;
      }
    }
  }

  /** Changes that change nothing give back the very same root. */
  lemma FlushedNothing(base: Root, shardOf: string -> nat, changes: Publication.Changes)
    requires forall k :: k in changes ==> changes[k] == Lookup(base, shardOf, k.kind, k.id)
    ensures FlushedRoot(base, shardOf, changes) == base
  {
    var root := FlushedRoot(base, shardOf, changes);
    assert Changed(base, shardOf, changes, changes.Keys) == {};
    forall kind | kind in base ensures kind in root && root[kind] == base[kind] {
    }
  }

  // ---------------------------------------------------------------- the pages of a flush

  function RecordPages(changes: Publication.Changes, keys: set<Key>): set<Pages.Page> {
    set k, q | k in keys && k in changes && changes[k].Some? && q in Pages.Nodes(Pages.Tree(changes[k].value)) :: q
  }

  function TextPages(c: Codec, buckets: map<(string, nat), Bucket>, done: set<(string, nat)>): set<Pages.Page> {
    set b, q | b in done && b in buckets && q in Pages.Nodes(Pages.Tree(BucketText(c, buckets[b]))) :: q
  }

  /** All pages that a flush puts: those of the changed records, of the changed buckets, and of the new root. */
  function FlushPages(c: Codec, base: Root, shardOf: string -> nat, changes: Publication.Changes): set<Pages.Page> {
    var changed := Changed(base, shardOf, changes, changes.Keys);
    RecordPages(changes, changes.Keys)
    + TextPages(c, map b | b in changed :: NewBucket(base, shardOf, changes, b), changed)
    + Pages.Nodes(Pages.Tree(RootText(c, FlushedRoot(base, shardOf, changes))))
  }

  /** The new root reaches nothing but what the old one reached and what the flush puts. */
  lemma FlushedReach(c: Codec, base: Root, shardOf: string -> nat, changes: Publication.Changes)
    ensures RootPages(c, FlushedRoot(base, shardOf, changes)) <= ShardPages(c, base) + FlushPages(c, base, shardOf, changes)
  {
    var root: Root := FlushedRoot(base, shardOf, changes);
    forall kind: string, shard: nat, q | kind in root && shard in root[kind] && q in BucketPages(c, root[kind][shard].value)
      ensures q in ShardPages(c, base) + FlushPages(c, base, shardOf, changes)
    {
      FlushedBucket(base, shardOf, changes, kind, shard);
      if (kind, shard) in Changed(base, shardOf, changes, changes.Keys) {
        NewBucketReach(c, base, shardOf, changes, (kind, shard), q);
      } else {
        BucketInRoot(c, base, kind, shard, q);
      }
    }
  }

  lemma FlushedBucket(base: Root, shardOf: string -> nat, changes: Publication.Changes, kind: string, shard: nat)
    requires var root := FlushedRoot(base, shardOf, changes); kind in root && shard in root[kind]
    ensures var root := FlushedRoot(base, shardOf, changes);
      if (kind, shard) in Changed(base, shardOf, changes, changes.Keys)
      then root[kind][shard].value == NewBucket(base, shardOf, changes, (kind, shard))
      else kind in base && shard in base[kind] && root[kind][shard] == base[kind][shard]
  {
  }

  lemma BucketInRoot(c: Codec, root: Root, kind: string, shard: nat, q: Pages.Page)
    requires kind in root && shard in root[kind] && q in BucketPages(c, root[kind][shard].value)
    ensures q in ShardPages(c, root)
  {
  }

  lemma NewBucketReach(c: Codec, base: Root, shardOf: string -> nat, changes: Publication.Changes, b: (string, nat), q: Pages.Page)
    requires b in Changed(base, shardOf, changes, changes.Keys) && q in BucketPages(c, NewBucket(base, shardOf, changes, b))
    ensures q in ShardPages(c, base) + FlushPages(c, base, shardOf, changes)
  {
    var bucket := NewBucket(base, shardOf, changes, b);
    if q !in Pages.Nodes(Pages.Tree(BucketText(c, bucket))) {
      var i :| i in bucket && q in Pages.Nodes(Pages.Tree(bucket[i].value));
      NewCell(base, shardOf, changes, b, i);
      if Publication.Key(b.0, i) in changes && shardOf(i) == b.1 {
        assert q in RecordPages(changes, changes.Keys);
      } else {
        RecordInRoot(c, base, b.0, b.1, i, q);
      }
    } else {
      TextOf(c, base, shardOf, changes, b, q);
    }
  }

  lemma RecordInRoot(c: Codec, root: Root, kind: string, shard: nat, i: string, q: Pages.Page)
    requires kind in root && shard in root[kind] && i in root[kind][shard].value
    requires q in Pages.Nodes(Pages.Tree(root[kind][shard].value[i].value))
    ensures q in ShardPages(c, root)
  {
    assert q in BucketPages(c, root[kind][shard].value);
  }

  lemma TextOf(c: Codec, base: Root, shardOf: string -> nat, changes: Publication.Changes, b: (string, nat), q: Pages.Page)
    requires b in Changed(base, shardOf, changes, changes.Keys)
    requires q in Pages.Nodes(Pages.Tree(BucketText(c, NewBucket(base, shardOf, changes, b))))
    ensures q in FlushPages(c, base, shardOf, changes)
  {
    var changed := Changed(base, shardOf, changes, changes.Keys);
    var buckets: map<(string, nat), Bucket> := map x | x in changed :: NewBucket(base, shardOf, changes, x);
    assert b in changed && b in buckets && buckets[b] == NewBucket(base, shardOf, changes, b);
    assert q in TextPages(c, buckets, changed);
  }

  /** The map that a root stands for. */
  function ViewOf(root: Root, shardOf: string -> nat): Publication.View {
    map kind, shard, i | kind in root && shard in root[kind] && i in root[kind][shard].value && shardOf(i) == shard ::
      Publication.Key(kind, i) := root[kind][shard].value[i].value
  }

  /** A root as publication sees it; before the first one, there is none. */
  function Published(c: Codec, shardOf: string -> nat, root: Option<Root>): Publication.Root {
    if root.Some? then Publication.Root(ViewOf(root.value, shardOf), RootPages(c, root.value)) else Publication.EMPTY
  }

  lemma ViewLookup(root: Root, shardOf: string -> nat, key: Key)
    ensures Lookup(root, shardOf, key.kind, key.id) == if key in ViewOf(root, shardOf) then Some(ViewOf(root, shardOf)[key]) else None
  {
    var view := ViewOf(root, shardOf);
    if key in view {
      assert key == Publication.Key(key.kind, key.id);
    }
    if Lookup(root, shardOf, key.kind, key.id).Some? {
      assert shardOf(key.id) in root[key.kind];
      assert Publication.Key(key.kind, key.id) in view;
    }
  }

  lemma FlushedView(before: Root, after: Root, shardOf: string -> nat, changes: Publication.Changes)
    requires forall key: Key {:trigger Lookup(after, shardOf, key.kind, key.id)} ::
      Lookup(after, shardOf, key.kind, key.id) == if key in changes then changes[key] else Lookup(before, shardOf, key.kind, key.id)
    ensures ViewOf(after, shardOf) == Publication.Apply(changes, ViewOf(before, shardOf))
  {
    var was, now := ViewOf(before, shardOf), ViewOf(after, shardOf);
    forall key: Key
      ensures (if key in now then Some(now[key]) else None) == if key in changes then changes[key] else if key in was then Some(was[key]) else None
    {
      ViewLookup(before, shardOf, key);
      ViewLookup(after, shardOf, key);
    }
    AppliedMap(was, now, changes);
  }

  lemma AppliedMap(was: Publication.View, now: Publication.View, changes: Publication.Changes)
    requires forall key: Key {:trigger key in now} {:trigger key in changes} {:trigger key in was} ::
      (if key in now then Some(now[key]) else None) == if key in changes then changes[key] else if key in was then Some(was[key]) else None
    ensures now == Publication.Apply(changes, was)
  {
  }

  lemma SameView(before: Root, after: Root, shardOf: string -> nat)
    requires ViewOf(before, shardOf) == ViewOf(after, shardOf)
    ensures forall key: Key {:trigger Lookup(after, shardOf, key.kind, key.id)} {:trigger Lookup(before, shardOf, key.kind, key.id)} ::
      Lookup(after, shardOf, key.kind, key.id) == Lookup(before, shardOf, key.kind, key.id)
  {
    forall key: Key ensures Lookup(after, shardOf, key.kind, key.id) == Lookup(before, shardOf, key.kind, key.id) {
      ViewLookup(before, shardOf, key);
      ViewLookup(after, shardOf, key);
    }
  }

  lemma MoreRecords(changes: Publication.Changes, done: set<Key>, key: Key)
    requires key in changes
    ensures RecordPages(changes, done + {key}) == RecordPages(changes, done)
      + if changes[key].Some? then Pages.Nodes(Pages.Tree(changes[key].value)) else {}
  {
  }

  lemma MoreTexts(c: Codec, buckets: map<(string, nat), Bucket>, done: set<(string, nat)>, b: (string, nat))
    requires b in buckets
    ensures TextPages(c, buckets, done + {b}) == TextPages(c, buckets, done) + Pages.Nodes(Pages.Tree(BucketText(c, buckets[b])))
  {
  }

  lemma FewerOverflow(cached: set<Pages.Page>, before: set<Pages.Page>, pages: set<Pages.Page>, all: set<Pages.Page>)
    requires Pages.Overflows(cached, before, pages) && pages <= all
    ensures Pages.Overflows(cached, before, all)
  {
    Pages.SizeGrows(before + (pages - cached), before + (all - cached));
  }

  lemma OverlaidNothing(base: Root, buckets: map<(string, nat), Bucket>)
    ensures Overlaid(base, {}, buckets) == base
  {
    var root := Overlaid(base, {}, buckets);
    forall kind | kind in base ensures kind in root && root[kind] == base[kind] {
      NothingShards(base, buckets, kind);
    }
  }

  lemma NothingShards(base: Root, buckets: map<(string, nat), Bucket>, kind: string)
    requires kind in base
    ensures OverlaidShards(base, {}, buckets, kind) == base[kind]
  {
    assert ShardsOf(base, {}, kind) == base[kind].Keys;
  }

  lemma OverlaidMore(base: Root, done: set<(string, nat)>, buckets: map<(string, nat), Bucket>, b: (string, nat), root: Root, want: Root)
    requires done <= buckets.Keys && b in buckets && root == Overlaid(base, done, buckets)
    requires want == root[b.0 := (if b.0 in root then root[b.0] else map[])[b.1 := Blob(buckets[b])]]
    ensures Overlaid(base, done + {b}, buckets) == want
  {
    var after := Overlaid(base, done + {b}, buckets);
    forall kind: string ensures SameAt(after, want, kind) {
      MoreKind(base, done, buckets, b, kind, root, after, want);
    }
    SameRoot(after, want);
  }

  predicate SameAt(a: Root, c: Root, kind: string) {
    (kind in a <==> kind in c) && (kind in a ==> a[kind] == c[kind])
  }

  lemma SameRoot(a: Root, c: Root)
    requires forall kind: string {:trigger SameAt(a, c, kind)} :: SameAt(a, c, kind)
    ensures a == c
  {
    forall kind | kind in a ensures kind in c && a[kind] == c[kind] {
      assert SameAt(a, c, kind);
    }
    forall kind | kind in c ensures kind in a {
      assert SameAt(a, c, kind);
    }
  }

  lemma MoreKind(base: Root, done: set<(string, nat)>, buckets: map<(string, nat), Bucket>, b: (string, nat), kind: string, root: Root, after: Root, want: Root)
    requires done <= buckets.Keys && b in buckets && root == Overlaid(base, done, buckets) && after == Overlaid(base, done + {b}, buckets)
    requires want == root[b.0 := (if b.0 in root then root[b.0] else map[])[b.1 := Blob(buckets[b])]]
    ensures SameAt(after, want, kind)
  {
    if kind == b.0 {
      SameShards(base, done, buckets, b);
    } else {
      OtherShards(base, done, buckets, b, kind);
    }
  }

  lemma OtherShards(base: Root, done: set<(string, nat)>, buckets: map<(string, nat), Bucket>, b: (string, nat), kind: string)
    requires done <= buckets.Keys && b in buckets && kind != b.0
    ensures OverlaidShards(base, done + {b}, buckets, kind) == OverlaidShards(base, done, buckets, kind)
    ensures kind in Overlaid(base, done + {b}, buckets) <==> kind in Overlaid(base, done, buckets)
  {
    assert ShardsOf(base, done + {b}, kind) == ShardsOf(base, done, kind);
    assert (set x | x in done + {b} && x.0 == kind :: x.0) == (set x | x in done && x.0 == kind :: x.0);
  }

  lemma SameShards(base: Root, done: set<(string, nat)>, buckets: map<(string, nat), Bucket>, b: (string, nat))
    requires done <= buckets.Keys && b in buckets
    ensures OverlaidShards(base, done + {b}, buckets, b.0) == OverlaidShards(base, done, buckets, b.0)[b.1 := Blob(buckets[b])]
    ensures b.0 !in Overlaid(base, done, buckets) ==> OverlaidShards(base, done, buckets, b.0) == map[]
    ensures b.0 in Overlaid(base, done + {b}, buckets)
  {
    assert b == (b.0, b.1);
    assert ShardsOf(base, done + {b}, b.0) == ShardsOf(base, done, b.0) + {b.1};
    var after, before := OverlaidShards(base, done + {b}, buckets, b.0), OverlaidShards(base, done, buckets, b.0);
    forall s | s in after ensures after[s] == before[b.1 := Blob(buckets[b])][s] {
      if s != b.1 {
        assert (b.0, s) in done + {b} <==> (b.0, s) in done;
      }
    }
    if b.0 !in Overlaid(base, done, buckets) {
      NoShards(base, done, buckets, b.0);
    }
  }

  lemma NoShards(base: Root, done: set<(string, nat)>, buckets: map<(string, nat), Bucket>, kind: string)
    requires done <= buckets.Keys && kind !in Overlaid(base, done, buckets)
    ensures OverlaidShards(base, done, buckets, kind) == map[]
  {
    forall b | b in done ensures b.0 != kind {
      assert b.0 in (set x | x in done :: x.0);
    }
    assert ShardsOf(base, done, kind) == {};
  }

  lemma SameOverlaid(base: Root, done: set<(string, nat)>, a: map<(string, nat), Bucket>, c: map<(string, nat), Bucket>, kind: string)
    requires done <= a.Keys && done <= c.Keys && forall b :: b in done ==> a[b] == c[b]
    ensures OverlaidShards(base, done, a, kind) == OverlaidShards(base, done, c, kind)
  {
    var x, y := OverlaidShards(base, done, a, kind), OverlaidShards(base, done, c, kind);
    assert x.Keys == y.Keys;
    forall s | s in x ensures x[s] == y[s] {
    }
  }

  lemma SameOverlay(base: Root, done: set<(string, nat)>, a: map<(string, nat), Bucket>, c: map<(string, nat), Bucket>)
    requires done <= a.Keys && done <= c.Keys && forall b :: b in done ==> a[b] == c[b]
    ensures Overlaid(base, done, a) == Overlaid(base, done, c)
  {
    var x, y := Overlaid(base, done, a), Overlaid(base, done, c);
    forall kind | kind in x ensures x[kind] == y[kind] {
      SameOverlaid(base, done, a, c, kind);
    }
  }

  class EtcdUnit {
    const shardOf: string -> nat
    const codec: Codec
    const store: Pages.PageStore
    const write: bool
    /** The root that was read, if there was one, and its map. */
    ghost const found: Option<Root>
    ghost const base: Root
    /** The guards that the process requires of each of its units. */
    ghost const required: map<string, string>
    var root: Root
    var buckets: map<(string, nat), Bucket>
    var pending: map<Key, Option<Text>>
    /** Lease keys that the commit compares, puts or deletes, and those read so far. */
    var guards: map<string, string>
    var effects: map<string, Option<string>>
    var leaseReads: map<string, Option<string>>

    /** Buckets read so far are those of the root the unit was opened on. */
    ghost predicate Valid()
      reads this
    {
      && root == base == (if found.Some? then found.value else map[]) && WellSharded(base, shardOf)
      && (forall b :: b in buckets ==> buckets[b] == BucketOf(base, b.0, b.1))
      && (!write ==> pending == map[])
    }

    /** What the unit sees: its own changes over the root it was opened on. */
    function Seen(key: Key): Option<Text>
      reads this
    {
      if key in pending then pending[key] else Lookup(root, shardOf, key.kind, key.id)
    }

    constructor (store: Pages.PageStore, codec: Codec, shardOf: string -> nat, root: Option<Root>, required: map<string, string>, write: bool)
      requires root.Some? ==> WellSharded(root.value, shardOf)
      ensures Valid() && GuardsOk() && this.store == store && this.codec == codec && this.shardOf == shardOf
      ensures this.found == root && this.required == required && this.write == write
      ensures pending == map[] && effects == map[] && leaseReads == map[] && guards == required
    {
      this.store, this.codec, this.shardOf, this.found, this.required, this.write := store, codec, shardOf, root, required, write;
      this.root, this.base := if root.Some? then root.value else map[], if root.Some? then root.value else map[];
      buckets, pending, guards, effects, leaseReads := map[], map[], required, map[], map[];
    }

    method LoadBucket(kind: string, i: string) returns (bucket: Bucket)
      modifies this`buckets
      ensures (kind, shardOf(i)) in old(buckets) ==> buckets == old(buckets)
      ensures (kind, shardOf(i)) !in old(buckets) ==> buckets == old(buckets)[(kind, shardOf(i)) := BucketOf(root, kind, shardOf(i))]
      ensures bucket == buckets[(kind, shardOf(i))]
    {
      var key := (kind, shardOf(i));
      if key !in buckets {
        buckets := buckets[key := BucketOf(root, kind, shardOf(i))];
      }
      bucket := buckets[key];
    }

    method Get(key: Key) returns (r: Option<Text>)
      requires Valid()
      modifies this`buckets
      ensures Valid() && r == Seen(key)
    {
      if key in pending {
        return pending[key];
      }
      var bucket := LoadBucket(key.kind, key.id);
      r := if key.id in bucket then Some(bucket[key.id].value) else None;
    }

    /** The identities of a kind's records: those of the root's buckets and those of pending changes. */
    method Identities(kind: string) returns (ids: set<string>)
      requires Valid()
      modifies this`buckets
      ensures Valid()
      ensures forall i :: Seen(Publication.Key(kind, i)).Some? ==> i in ids
    {
      ids := {};
      var shards := if kind in root then root[kind].Keys else {};
      ghost var all := shards;
      while shards != {}
        invariant Valid() && shards <= all == if kind in root then root[kind].Keys else {}
        invariant forall s, i :: s in all && s !in shards && i in BucketOf(root, kind, s) ==> i in ids
        decreases shards
      {
        var s :| s in shards;
        shards := shards - {s};
        if (kind, s) !in buckets {
          buckets := buckets[(kind, s) := BucketOf(root, kind, s)];
        }
        ids := ids + buckets[(kind, s)].Keys;
      }
      ids := ids + set k | k in pending && k.kind == kind :: k.id;
      forall i | Seen(Publication.Key(kind, i)).Some? ensures i in ids {
        if Publication.Key(kind, i) !in pending {
          assert i in BucketOf(root, kind, shardOf(i));
        }
      }
    }

    /** all: exactly the records of the kind that the unit sees. */
    method All(kind: string) returns (records: map<string, Text>)
      requires Valid()
      modifies this`buckets
      ensures Valid()
      ensures forall i :: i in records <==> Seen(Publication.Key(kind, i)).Some?
      ensures forall i :: i in records ==> Seen(Publication.Key(kind, i)) == Some(records[i])
    {
      var ids := Identities(kind);
      records := map[];
      ghost var all := ids;
      while ids != {}
        invariant Valid() && ids <= all
        invariant forall i :: Seen(Publication.Key(kind, i)).Some? ==> i in all
        invariant forall i :: i in records <==> i in all && i !in ids && Seen(Publication.Key(kind, i)).Some?
        invariant forall i :: i in records ==> Seen(Publication.Key(kind, i)) == Some(records[i])
        decreases ids
      {
        var i :| i in ids;
        ids := ids - {i};
        var value := Get(Publication.Key(kind, i));
        if value.Some? {
          records := records[i := value.value];
        }
      }
    }

    method Put(key: Key, value: Text) returns (ok: bool)
      requires Valid()
      modifies this`pending
      ensures Valid() && ok == write
      ensures pending == if write then old(pending)[key := Some(value)] else old(pending)
    {
      ok := write;
      if write {
        pending := pending[key := Some(value)];
      }
    }

    method Delete(key: Key) returns (ok: bool)
      requires Valid()
      modifies this`pending
      ensures Valid() && ok == write
      ensures pending == if write then old(pending)[key := None] else old(pending)
    {
      ok := write;
      if write {
        pending := pending[key := None];
      }
    }

    // -------------------------------------------------------------- leases

    /** The guard on a key is what the unit has read and found live there, and otherwise what the process requires. */
    ghost predicate GuardsOk()
      reads this
    {
      && (forall k :: k in guards ==> (k in leaseReads && leaseReads[k] == Some(guards[k])) || (k in required && guards[k] == required[k]))
      && required.Keys <= guards.Keys
    }

    /** lease_live: a lease that the unit itself puts is live if it is put for this owner; any other is read once,
        and counts as live exactly if it is held for this owner. In that case its owner becomes the guard on its key,
        in place of the guard that the process requires there, if any. */
    method LeaseLive(key: string, owner: string, etcd: map<string, string>) returns (valid: bool)
      requires GuardsOk()
      modifies this`guards, this`leaseReads
      ensures GuardsOk()
      ensures guards == if valid && !(key in effects && effects[key].Some?) then old(guards)[key := owner] else old(guards)
      ensures forall k :: k in old(leaseReads) ==> k in leaseReads && leaseReads[k] == old(leaseReads)[k]
      ensures key in effects && effects[key].Some? ==> valid == (effects[key].value == owner)
      ensures !(key in effects && effects[key].Some?) ==>
        key in leaseReads && (valid <==> leaseReads[key] == Some(owner))
      ensures key !in old(leaseReads) && key in leaseReads ==> leaseReads[key] == if key in etcd then Some(etcd[key]) else None
    {
      if key in effects && effects[key].Some? {
        return effects[key].value == owner;
      }
      if key !in leaseReads {
        leaseReads := leaseReads[key := if key in etcd then Some(etcd[key]) else None];
      }
      valid := leaseReads[key] == Some(owner);
      if valid {
        guards := guards[key := owner];
      }
    }

    // -------------------------------------------------------------- flush

    /** What cell i of a bucket must hold once all pending changes but those left have been settled. */
    ghost function Wanted(b: (string, nat), i: string, left: set<Key>): Option<Text>
      reads this`pending
    {
      if Publication.Key(b.0, i) in left then Cell(BucketOf(base, b.0, b.1), i) else Slot(base, shardOf, pending, b, i)
    }

    /** The buckets hold what they must, and changed lists exactly those that differ from the root's. */
    ghost predicate Settled(left: set<Key>, changed: set<(string, nat)>)
      reads this`buckets, this`pending
    {
      && (forall b, i :: b in buckets ==> Cell(buckets[b], i) == Wanted(b, i, left))
      && changed <= buckets.Keys && changed == Changed(base, shardOf, pending, pending.Keys - left)
    }

    /** One pending change goes to its bucket, unless it is there already. */
    method Settle(key: Key, ghost left: set<Key>, changed: set<(string, nat)>) returns (after: set<(string, nat)>)
      requires root == base && key in pending && key in left && Settled(left, changed)
      modifies this`buckets
      ensures Settled(left - {key}, after)
    {
      var bucket := LoadBucket(key.kind, key.id);
      var b: (string, nat) := (key.kind, shardOf(key.id));
      after := changed;
      assert Wanted(b, key.id, left) == Lookup(base, shardOf, key.kind, key.id) && Publication.Key(b.0, key.id) == key;
      label Loaded:
      if Cell(bucket, key.id) != pending[key] {
        var settled := if pending[key].Some? then bucket[key.id := Blob(pending[key].value)] else bucket - {key.id};
        buckets := buckets[b := settled];
        after := changed + {b};
      }
      forall c: (string, nat), i | c in buckets ensures Cell(buckets[c], i) == Wanted(c, i, left - {key}) {
        if Publication.Key(c.0, i) == key && c == b {
          assert Cell(buckets[c], i) == pending[key];
        } else {
          assert Cell(buckets[c], i) == old@Loaded(Cell(buckets[c], i));
          assert Wanted(c, i, left - {key}) == Wanted(c, i, left);
        }
      }
      ChangedMore(key, left);
    }

    lemma ChangedMore(key: Key, left: set<Key>)
      requires key in pending && key in left
      ensures Changed(base, shardOf, pending, pending.Keys - (left - {key})) == Changed(base, shardOf, pending, pending.Keys - left)
        + if pending[key] != Lookup(base, shardOf, key.kind, key.id) then {(key.kind, shardOf(key.id))} else {}
    {
    }

    ghost predicate Based()
      reads this`root
    {
      root == base == (if found.Some? then found.value else map[])
    }

    /** The unit has taken in these pages since it had before. */
    ghost predicate Taken(before: set<Pages.Page>, pages: set<Pages.Page>)
      reads store`cache, store`unit
    {
      Pages.Took(store.cache.Keys, before, pages, store.Units())
    }

    ghost predicate TooMuch(before: set<Pages.Page>, pages: set<Pages.Page>)
      reads store`cache
    {
      Pages.Overflows(store.cache.Keys, before, pages)
    }

    method PutRecord(key: Key, ghost done: set<Key>, ghost before: set<Pages.Page>) returns (r: Pages.Result<()>)
      requires key in pending && store.Valid() && Taken(before, RecordPages(pending, done))
      modifies store`unit
      ensures store.Valid() && old(store.Have()) <= store.Have()
      ensures r.Ok? ==> Taken(before, RecordPages(pending, done + {key}))
      ensures r.Err? ==> r.reason == Pages.LimitExceeded && TooMuch(before, RecordPages(pending, done + {key}))
    {
      MoreRecords(pending, done, key);
      if pending[key].Some? {
        ghost var mid, pages := store.Units(), Pages.Nodes(Pages.Tree(pending[key].value));
        var digest := store.Blob(pending[key].value);
        if digest.Err? {
          Pages.OverflowsMore(store.cache.Keys, before, RecordPages(pending, done), mid, pages, RecordPages(pending, done + {key}));
          return Err(digest.reason);
        }
        Pages.TookMore(store.cache.Keys, before, RecordPages(pending, done), mid, pages, store.Units());
      }
      return Ok(());
    }

    /** Every pending record is put into pages, and then settled. */
    method SettleAll(ghost before: set<Pages.Page>) returns (r: Pages.Result<set<(string, nat)>>)
      requires Valid() && store.Valid() && before == store.Units()
      modifies this`buckets, store`unit
      ensures Based() && store.Valid() && old(store.Have()) <= store.Have()
      ensures r.Ok? ==> Settled({}, r.value) && Taken(before, RecordPages(pending, pending.Keys))
      ensures r.Err? ==> r.reason == Pages.LimitExceeded && TooMuch(before, RecordPages(pending, pending.Keys))
    {
      var changed := {};
      var left := pending.Keys;
      assert pending.Keys - left == {} && before == before + ({} - store.cache.Keys);
      while left != {}
        invariant Based() && left <= pending.Keys && Settled(left, changed)
        invariant store.Valid() && old(store.Have()) <= store.Have() && Taken(before, RecordPages(pending, pending.Keys - left))
        decreases left
      {
        var key :| key in left;
        var put := PutRecord(key, pending.Keys - left, before);
        assert pending.Keys - left + {key} == pending.Keys - (left - {key});
        if put.Err? {
          FewerOverflow(store.cache.Keys, before, RecordPages(pending, pending.Keys - (left - {key})), RecordPages(pending, pending.Keys));
          return Err(put.reason);
        }
        changed := Settle(key, left, changed);
        left := left - {key};
      }
      assert pending.Keys - left == pending.Keys;
      return Ok(changed);
    }

    /** flush: the new root is the old one with the pending changes put in, and its digest is returned. It is made
        exactly if the unit has room for all of the flush's pages that are not cached. */
    method Flush() returns (r: Pages.Result<Pages.Page>)
      requires Valid() && store.Valid()
      modifies this`buckets, this`root, store`unit
      ensures store.Valid() && old(store.Have()) <= store.Have()
      ensures r.Ok? <==> !Pages.Overflows(store.cache.Keys, old(store.Units()), FlushPages(codec, base, shardOf, pending))
      ensures r.Ok? ==> root == FlushedRoot(base, shardOf, pending) && r.value == Pages.Tree(RootText(codec, root))
      ensures r.Ok? ==> FlushedTo(root) && WellSharded(root, shardOf) && (Idle() ==> root == base)
      ensures r.Ok? ==> Taken(old(store.Units()), FlushPages(codec, base, shardOf, pending)) && Accounted()
      ensures r.Err? ==> r.reason == Pages.LimitExceeded
    {
      ghost var before, all := store.Units(), FlushPages(codec, base, shardOf, pending);
      var settled := SettleAll(before);
      if settled.Err? {
        FewerOverflow(store.cache.Keys, before, RecordPages(pending, pending.Keys), all);
        return Err(settled.reason);
      }
      r := Install(settled.value, before, all);
      if r.Ok? {
        FlushIsAccounted(before);
      }
    }

    /** The changed buckets and the root are put into pages. */
    method Install(changed: set<(string, nat)>, ghost before: set<Pages.Page>, ghost all: set<Pages.Page>) returns (r: Pages.Result<Pages.Page>)
      requires Based() && Settled({}, changed) && store.Valid() && all == FlushPages(codec, base, shardOf, pending)
      requires Taken(before, RecordPages(pending, pending.Keys))
      modifies this`root, store`unit
      ensures store.Valid() && old(store.Have()) <= store.Have()
      ensures r.Ok? ==> root == FlushedRoot(base, shardOf, pending) && r.value == Pages.Tree(RootText(codec, root))
      ensures r.Ok? ==> Taken(before, all)
      ensures r.Err? ==> r.reason == Pages.LimitExceeded && TooMuch(before, all)
    {
      ghost var records, texts := RecordPages(pending, pending.Keys), TextPages(codec, buckets, changed);
      NewBuckets(changed);
      ghost var mid := store.Units();
      var installed := InstallAll(changed, mid);
      if installed.Err? {
        Pages.OverflowsMore(store.cache.Keys, before, records, mid, texts, all);
        return Err(installed.reason);
      }
      Pages.TookMore(store.cache.Keys, before, records, mid, texts, store.Units());
      mid := store.Units();
      ghost var pages := Pages.Nodes(Pages.Tree(RootText(codec, root)));
      r := store.Blob(RootText(codec, root));
      if r.Err? {
        Pages.OverflowsMore(store.cache.Keys, before, records + texts, mid, pages, all);
      } else {
        Pages.TookMore(store.cache.Keys, before, records + texts, mid, pages, store.Units());
      }
    }

    /** The settled buckets are the new ones. */
    lemma NewBuckets(changed: set<(string, nat)>)
      requires Settled({}, changed)
      ensures changed == Changed(base, shardOf, pending, pending.Keys)
      ensures Overlaid(base, changed, buckets) == FlushedRoot(base, shardOf, pending)
      ensures TextPages(codec, buckets, changed) == TextPages(codec, map b | b in changed :: NewBucket(base, shardOf, pending, b), changed)
    {
      assert pending.Keys - {} == pending.Keys;
      var fresh': map<(string, nat), Bucket> := map b | b in changed :: NewBucket(base, shardOf, pending, b);
      forall b | b in changed ensures buckets[b] == fresh'[b] {
        SameCells(buckets[b], fresh'[b], b);
      }
      SameOverlay(base, changed, buckets, fresh');
    }

    lemma SameCells(a: Bucket, c: Bucket, b: (string, nat))
      requires c == NewBucket(base, shardOf, pending, b) && forall i :: Cell(a, i) == Wanted(b, i, {})
      ensures a == c
    {
      forall i ensures Cell(a, i) == Cell(c, i) {
        NewCell(base, shardOf, pending, b, i);
      }
      assert forall i {:trigger i in a} {:trigger i in c} :: (i in a <==> i in c) && (i in a ==> a[i] == c[i]) by {
        forall i ensures (i in a <==> i in c) && (i in a ==> a[i] == c[i]) {
          assert Cell(a, i) == Cell(c, i);
        }
      }
    }

    /** The root takes over every changed bucket, each put into pages. */
    method InstallAll(changed: set<(string, nat)>, ghost before: set<Pages.Page>) returns (r: Pages.Result<()>)
      requires root == base && changed <= buckets.Keys && store.Valid() && before == store.Units()
      modifies this`root, store`unit
      ensures store.Valid() && old(store.Have()) <= store.Have()
      ensures r.Ok? ==> root == Overlaid(base, changed, buckets) && Taken(before, TextPages(codec, buckets, changed))
      ensures r.Err? ==> r.reason == Pages.LimitExceeded && TooMuch(before, TextPages(codec, buckets, changed))
    {
      var left := changed;
      OverlaidNothing(base, buckets);
      assert changed - left == {} && before == before + ({} - store.cache.Keys);
      while left != {}
        invariant left <= changed && root == Overlaid(base, changed - left, buckets)
        invariant store.Valid() && old(store.Have()) <= store.Have() && Taken(before, TextPages(codec, buckets, changed - left))
        decreases left
      {
        var b :| b in left;
        ghost var done := changed - left;
        left := left - {b};
        assert changed - left == done + {b};
        r := InstallOne(b, done, before);
        if r.Err? {
          FewerOverflow(store.cache.Keys, before, TextPages(codec, buckets, done + {b}), TextPages(codec, buckets, changed));
          return;
        }
      }
      assert changed - left == changed;
      return Ok(());
    }

    method InstallOne(b: (string, nat), ghost done: set<(string, nat)>, ghost before: set<Pages.Page>) returns (r: Pages.Result<()>)
      requires b in buckets && done <= buckets.Keys && root == Overlaid(base, done, buckets) && store.Valid()
      requires Taken(before, TextPages(codec, buckets, done))
      modifies this`root, store`unit
      ensures store.Valid() && old(store.Have()) <= store.Have()
      ensures r.Ok? ==> root == Overlaid(base, done + {b}, buckets) && Taken(before, TextPages(codec, buckets, done + {b}))
      ensures r.Err? ==> r.reason == Pages.LimitExceeded && TooMuch(before, TextPages(codec, buckets, done + {b}))
    {
      ghost var mid, pages := store.Units(), Pages.Nodes(Pages.Tree(BucketText(codec, buckets[b])));
      MoreTexts(codec, buckets, done, b);
      var digest := store.Blob(BucketText(codec, buckets[b]));
      if digest.Err? {
        Pages.OverflowsMore(store.cache.Keys, before, TextPages(codec, buckets, done), mid, pages, TextPages(codec, buckets, done + {b}));
        return Err(digest.reason);
      }
      Pages.TookMore(store.cache.Keys, before, TextPages(codec, buckets, done), mid, pages, store.Units());
      ghost var was := root;
      root := root[b.0 := (if b.0 in root then root[b.0] else map[])[b.1 := Blob(buckets[b])]];
      OverlaidMore(base, done, buckets, b, was, root);
      return Ok(());
    }

    /** The map of root is the base's, overridden by the pending changes. */
    ghost predicate FlushedTo(root: Root)
      reads this`pending
    {
      forall key: Key {:trigger Lookup(root, shardOf, key.kind, key.id)} ::
        Lookup(root, shardOf, key.kind, key.id) == if key in pending then pending[key] else Lookup(base, shardOf, key.kind, key.id)
    }

    /** No pending change changes anything. */
    ghost predicate Idle()
      reads this`pending
    {
      forall k :: k in pending ==> pending[k] == Lookup(base, shardOf, k.kind, k.id)
    }

    ghost function Added(): set<Pages.Page>
      reads store`unit
    {
      store.Units()
    }

    /** What publication relies on: the new root is the old one's map overridden by the pending changes, and reaches
        nothing but what the old one reached, what the cache holds and what the unit adds. */
    ghost predicate Accounted()
      reads this`root, this`pending, store`cache, store`unit
    {
      Publication.Flushed(Published(codec, shardOf, found), pending, Published(codec, shardOf, Some(root)), store.cache.Keys, Added())
    }

    lemma FlushIsAccounted(before: set<Pages.Page>)
      requires root == FlushedRoot(base, shardOf, pending) && Taken(before, FlushPages(codec, base, shardOf, pending))
      requires base == (if found.Some? then found.value else map[]) && WellSharded(base, shardOf)
      ensures FlushedTo(root) && WellSharded(root, shardOf) && (Idle() ==> root == base)
      ensures Accounted()
    {
      forall key: Key
        ensures Lookup(root, shardOf, key.kind, key.id) == if key in pending then pending[key] else Lookup(base, shardOf, key.kind, key.id)
      {
        FlushedLookup(base, shardOf, pending, key);
      }
      FlushedSharded(base, shardOf, pending);
      if Idle() {
        FlushedNothing(base, shardOf, pending);
      }
      FlushedView(base, root, shardOf, pending);
      if ViewOf(root, shardOf) == ViewOf(base, shardOf) {
        SameView(base, root, shardOf);
      }
      ReachedBefore(before);
    }

    lemma ReachedBefore(before: set<Pages.Page>)
      requires root == FlushedRoot(base, shardOf, pending) && Taken(before, FlushPages(codec, base, shardOf, pending))
      requires base == if found.Some? then found.value else map[]
      ensures RootPages(codec, root) <= Published(codec, shardOf, found).pages + store.Have()
    {
      FlushedReach(codec, base, shardOf, pending);
      if found == None {
        assert ShardPages(codec, base) == {};
      }
    }

    /** The pages of a commit are in the store before it is sent: if the store has everything that the old root
        reaches, and every batch gets through, it then has everything that the new root reaches; and whatever happens,
        it keeps what it had. It fails only if the unit has no room for the flush's pages, or the store cannot be
        reached. */
    method Save(calls: nat) returns (r: Pages.Result<Pages.Page>)
      requires Valid() && store.Valid()
      modifies this`buckets, this`root, store
      ensures store.Valid() && Pages.Grows(old(store.stored), store.stored)
      ensures r.Ok? ==> root == FlushedRoot(base, shardOf, pending) && r.value == Pages.Tree(RootText(codec, root)) && FlushedTo(root)
      ensures r.Ok? && Pages.Stored(old(store.stored), Published(codec, shardOf, found).pages) ==>
        Pages.Stored(store.stored, RootPages(codec, root))
      ensures r.Err? ==> Pages.Overflows(old(store.cache.Keys), old(store.Units()), FlushPages(codec, base, shardOf, pending)) || calls < |store.unit|
    {
      r := Flush();
      if r.Ok? {
        ghost var have := store.Have();
        assert forall q :: q in store.cache.Keys ==> q in store.stored && store.stored[q] == q;
        label Flushed:
        var persisted := store.Persist(calls);
        if persisted.Err? {
          return Err(persisted.reason);
        }
        SavedReach(old@Flushed(store.stored), have);
      }
    }

    lemma SavedReach(before: map<Pages.Page, Pages.Page>, have: set<Pages.Page>)
      requires RootPages(codec, root) <= Published(codec, shardOf, found).pages + have
      requires Pages.Grows(before, store.stored) && Pages.Stored(store.stored, have)
      ensures Pages.Stored(before, Published(codec, shardOf, found).pages) ==> Pages.Stored(store.stored, RootPages(codec, root))
    {
    }
  }
}
