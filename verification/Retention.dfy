/** Offline collection of metadata pages: while no process runs, everything that the active and the import root
    reach is marked, and what is not marked is deleted page by page, so that a sweep may stop anywhere. */
module Retention {
  import opened Bytes
  import opened Keys
  import opened Pages
  import Unit

  const MARK_LIMIT: nat := 100000
  const RANGE_LIMIT: nat := 128
  const DELETE_LIMIT: nat := 32

  datatype Outcome = Done | Stopped(reason: Cause)

  datatype Cause = Lost | TooMany | Conflict

  class Collector {
    const prefix: Key
    /** The digits of a page's digest. */
    const address: Page -> Key
    /** The digests that an object's text names: a root's buckets, a bucket's records. */
    const names: seq<byte> -> seq<Page>
    /** What etcd holds: pages under the prefix, and other keys. */
    var store: map<Key, Page>
    var marked: set<Page>

    ghost predicate Valid()
      reads this
    {
      forall p, q :: address(p) == address(q) ==> p == q
    }

    constructor (prefix: Key, address: Page -> Key, names: seq<byte> -> seq<Page>, store: map<Key, Page>)
      requires forall p, q :: address(p) == address(q) ==> p == q
      ensures Valid() && this.store == store && this.prefix == prefix && this.address == address && this.names == names && marked == {}
    {
      this.prefix, this.address, this.names, this.store, marked := prefix, address, names, store, {};
    }

    function KeyOf(p: Page): Key {
      prefix + address(p)
    }

    predicate Held(p: Page)
      reads this
    {
      KeyOf(p) in store && store[KeyOf(p)] == p
    }

    ghost predicate AllHeld(ps: set<Page>)
      reads this
    {
      forall p :: p in ps ==> Held(p)
    }

    // -------------------------------------------------------------- mark

    /** blob: mark a tree and return what it spells; at most MARK_LIMIT pages. */
    method Mark(d: Page) returns (r: Option<seq<byte>>, cause: Cause)
      modifies this`marked
      ensures old(marked) <= marked && marked - old(marked) <= Nodes(d)
      ensures r.Some? ==> r.value == Spell(d) && marked == old(marked) + Nodes(d) && AllHeld(Nodes(d))
      ensures r.None? && cause == Lost ==> !AllHeld(Nodes(d))
      ensures r.None? ==> cause != Conflict && (cause == TooMany ==> |marked| >= MARK_LIMIT)
      decreases d
    {
      if |marked| >= MARK_LIMIT {
        return None, TooMany;
      }
      if !Held(d) {
        assert d in Nodes(d);
        return None, Lost;
      }
      marked := marked + {d};
      match d {
        case Leaf(data) =>
          return Some(data), Lost;
        case Inner(children) =>
          r, cause := MarkAll(children);
      }
    }

    method MarkAll(ps: seq<Page>) returns (r: Option<seq<byte>>, cause: Cause)
      modifies this`marked
      ensures old(marked) <= marked && marked - old(marked) <= NodesAll(ps)
      ensures r.Some? ==> r.value == SpellAll(ps) && marked == old(marked) + NodesAll(ps) && AllHeld(NodesAll(ps))
      ensures r.None? && cause == Lost ==> !AllHeld(NodesAll(ps))
      ensures r.None? ==> cause != Conflict && (cause == TooMany ==> |marked| >= MARK_LIMIT)
      decreases ps
    {
      var bytes, i := [], 0;
      assert ps[..0] == [];
      while i < |ps|
        invariant 0 <= i <= |ps| && bytes == SpellAll(ps[..i])
        invariant marked == old(marked) + NodesAll(ps[..i]) && AllHeld(NodesAll(ps[..i]))
      {
        NodesSnoc(ps, i);
        Part(ps, i);
        var part, why := Mark(ps[i]);
        if part.None? {
          return None, why;
        }
        assert ps[..i + 1] == ps[..i] + [ps[i]];
        SpellSnoc(ps[..i], ps[i]);
        bytes, i := bytes + part.value, i + 1;
      }
      assert ps[..i] == ps;
      return Some(bytes), Lost;
    }

    lemma Part(ps: seq<Page>, i: nat)
      requires i < |ps|
      ensures NodesAll(ps[..i]) <= NodesAll(ps) && Nodes(ps[i]) <= NodesAll(ps)
    {
      assert ps == ps[..i] + ps[i..];
      NodesConcat(ps[..i], ps[i..]);
    }

    /** The pages of a bucket and of the records that it names. */
    function BucketReach(bucket: Page): set<Page> {
      Nodes(bucket) + NodesAll(names(Spell(bucket)))
    }

    function BucketsReach(buckets: seq<Page>): set<Page> {
      if buckets == [] then {} else BucketsReach(buckets[..|buckets| - 1]) + BucketReach(buckets[|buckets| - 1])
    }

    /** Everything that reading any record of a root can need. */
    function Reach(root: Page): set<Page> {
      Nodes(root) + BucketsReach(names(Spell(root)))
    }

    function ReachAll(roots: seq<Page>): set<Page> {
      if roots == [] then {} else ReachAll(roots[..|roots| - 1]) + Reach(roots[|roots| - 1])
    }

    /** names finds in the texts of a bucket and of a root just the digests that are in them. */
    ghost predicate Parses(c: Unit.Codec) {
      && (forall m: map<string, Page>, p {:trigger p in names(c.bucket(m))} :: p in names(c.bucket(m)) <==> p in m.Values)
      && (forall r: map<string, map<nat, Page>>, p {:trigger p in names(c.root(r))} ::
            p in names(c.root(r)) <==> exists kind, shard :: kind in r && shard in r[kind] && r[kind][shard] == p)
    }

    lemma {:induction false} BucketsReachIs(buckets: seq<Page>, q: Page)
      ensures q in BucketsReach(buckets) <==> exists b :: b in buckets && q in BucketReach(b)
    {
      if buckets != [] {
        var n := |buckets| - 1;
        BucketsReachIs(buckets[..n], q);
        assert buckets == buckets[..n] + [buckets[n]];
      }
    }

    lemma BucketReachIs(c: Unit.Codec, bucket: Unit.Bucket)
      requires Parses(c)
      ensures BucketReach(Tree(Unit.BucketText(c, bucket))) == Unit.BucketPages(c, bucket)
    {
      var text, m: map<string, Page> := Unit.BucketText(c, bucket), map i | i in bucket :: Tree(bucket[i].value);
      TreeSpells(text);
      forall q ensures q in NodesAll(names(text)) <==> exists i :: i in bucket && q in Nodes(Tree(bucket[i].value)) {
        NodesAllIs(names(text), q);
        assert text == c.bucket(m);
        if j :| 0 <= j < |names(text)| && q in Nodes(names(text)[j]) {
          assert names(text)[j] in names(c.bucket(m));
          assert names(text)[j] in m.Values;
        }
        if i :| i in bucket && q in Nodes(Tree(bucket[i].value)) {
          assert m[i] in m.Values && m[i] in names(text);
        }
      }
    }

    /** What marking follows is what publication counts as reached: the pages of a root that units have flushed. */
    lemma ReachIsPublished(c: Unit.Codec, root: Unit.Root)
      requires Parses(c)
      ensures Reach(Tree(Unit.RootText(c, root))) == Unit.RootPages(c, root)
    {
      var text := Unit.RootText(c, root);
      TreeSpells(text);
      forall q ensures q in BucketsReach(names(text)) <==>
        exists kind, shard :: kind in root && shard in root[kind] && q in Unit.BucketPages(c, root[kind][shard].value)
      {
        BucketsReachIs(names(text), q);
        NamedBuckets(c, root, q);
      }
    }

    lemma NamedBuckets(c: Unit.Codec, root: Unit.Root, q: Page)
      requires Parses(c)
      ensures (exists b :: b in names(Unit.RootText(c, root)) && q in BucketReach(b)) <==>
        exists kind, shard :: kind in root && shard in root[kind] && q in Unit.BucketPages(c, root[kind][shard].value)
    {
      var r: map<string, map<nat, Page>> := map kind | kind in root :: Unit.BucketTrees(c, root[kind]);
      assert Unit.RootText(c, root) == c.root(r);
      if b :| b in names(c.root(r)) && q in BucketReach(b) {
        var kind, shard :| kind in r && shard in r[kind] && r[kind][shard] == b;
        BucketReachIs(c, root[kind][shard].value);
      }
      if kind, shard :| kind in root && shard in root[kind] && q in Unit.BucketPages(c, root[kind][shard].value) {
        BucketReachIs(c, root[kind][shard].value);
        assert kind in r && shard in r[kind] && r[kind][shard] in names(c.root(r));
      }
    }

    lemma {:induction false} BucketsPart(buckets: seq<Page>, i: nat)
      requires i < |buckets|
      ensures BucketsReach(buckets[..i]) + BucketReach(buckets[i]) <= BucketsReach(buckets)
    {
      if i == |buckets| - 1 {
        assert buckets[..i + 1] == buckets;
      } else {
        var front := buckets[..|buckets| - 1];
        BucketsPart(front, i);
        assert front[..i] == buckets[..i] && front[i] == buckets[i];
      }
    }

    lemma {:induction false} RootsPart(roots: seq<Page>, i: nat)
      requires i < |roots|
      ensures ReachAll(roots[..i]) + Reach(roots[i]) <= ReachAll(roots)
    {
      if i < |roots| - 1 {
        var front := roots[..|roots| - 1];
        RootsPart(front, i);
        assert front[..i] == roots[..i] && front[i] == roots[i];
      }
    }

    /** Marking gives up only if a page is lost, or if too many have been marked. */
    ghost predicate GaveUp(cause: Cause, pages: set<Page>)
      reads this
    {
      (cause == Lost && !AllHeld(pages)) || (cause == TooMany && |marked| >= MARK_LIMIT)
    }

    method MarkBucket(bucket: Page) returns (ok: bool, cause: Cause)
      modifies this`marked
      ensures old(marked) <= marked <= old(marked) + BucketReach(bucket)
      ensures ok ==> marked == old(marked) + BucketReach(bucket) && AllHeld(BucketReach(bucket))
      ensures !ok ==> GaveUp(cause, BucketReach(bucket))
    {
      var text, why := Mark(bucket);
      if text.None? {
        return false, why;
      }
      text, why := MarkAll(names(text.value));
      return text.Some?, if text.None? then why else Lost;
    }

    method MarkRoot(root: Page) returns (ok: bool, cause: Cause)
      modifies this`marked
      ensures old(marked) <= marked <= old(marked) + Reach(root)
      ensures ok ==> marked == old(marked) + Reach(root) && AllHeld(Reach(root))
      ensures !ok ==> GaveUp(cause, Reach(root))
    {
      var text, why := Mark(root);
      if text.None? {
        return false, why;
      }
      assert names(text.value) == names(Spell(root));
      ok, cause := MarkBuckets(names(text.value));
    }

    method MarkBuckets(buckets: seq<Page>) returns (ok: bool, cause: Cause)
      modifies this`marked
      ensures old(marked) <= marked <= old(marked) + BucketsReach(buckets)
      ensures ok ==> marked == old(marked) + BucketsReach(buckets) && AllHeld(BucketsReach(buckets))
      ensures !ok ==> GaveUp(cause, BucketsReach(buckets))
    {
      var i := 0;
      assert buckets[..0] == [];
      while i < |buckets|
        invariant 0 <= i <= |buckets|
        invariant marked == old(marked) + BucketsReach(buckets[..i]) && AllHeld(BucketsReach(buckets[..i]))
      {
        assert buckets[..i + 1][..i] == buckets[..i];
        BucketsPart(buckets, i);
        var one, reason := MarkBucket(buckets[i]);
        if !one {
          return false, reason;
        }
        i := i + 1;
      }
      assert buckets[..i] == buckets;
      return true, Lost;
    }

    method MarkRoots(roots: seq<Page>) returns (ok: bool, cause: Cause)
      modifies this`marked
      ensures old(marked) <= marked <= old(marked) + ReachAll(roots)
      ensures ok ==> marked == old(marked) + ReachAll(roots) && AllHeld(ReachAll(roots))
      ensures !ok ==> GaveUp(cause, ReachAll(roots))
    {
      var i := 0;
      assert roots[..0] == [];
      while i < |roots|
        invariant 0 <= i <= |roots|
        invariant marked == old(marked) + ReachAll(roots[..i]) && AllHeld(ReachAll(roots[..i]))
      {
        assert roots[..i + 1][..i] == roots[..i];
        RootsPart(roots, i);
        var one, reason := MarkRoot(roots[i]);
        if !one {
          return false, reason;
        }
        i := i + 1;
      }
      assert roots[..i] == roots;
      return true, Lost;
    }

    // -------------------------------------------------------------- sweep

    /** A page key whose address no marked page has. */
    ghost predicate Stale(k: Key)
      reads this`marked
    {
      prefix <= k && forall p :: p in marked ==> address(p) != k[|prefix|..]
    }

    method IsStale(k: Key) returns (stale: bool)
      requires prefix <= k
      ensures stale <==> Stale(k)
    {
      stale := k[|prefix|..] !in set p | p in marked :: address(p);
    }

    /** From one state of the store to another, only stale page keys have gone. */
    ghost predicate OnlyStaleGone(before: map<Key, Page>, after: map<Key, Page>)
      reads this`marked
    {
      && (forall k {:trigger k in after} :: k in after ==> k in before && after[k] == before[k])
      && (forall k {:trigger k in before} :: k in before && k !in after ==> Stale(k))
    }

    lemma GoneTransitive(a: map<Key, Page>, b: map<Key, Page>, c: map<Key, Page>)
      requires OnlyStaleGone(a, b) && OnlyStaleGone(b, c)
      ensures OnlyStaleGone(a, c)
    {
    }

    method StaleOf(page: seq<Key>) returns (stale: seq<Key>)
      requires (forall k :: k in page ==> prefix <= k) && NoRepeats(page)
      ensures (forall k :: k in stale <==> k in page && Stale(k)) && NoRepeats(stale)
    {
      stale := [];
      var i := 0;
      while i < |page|
        invariant 0 <= i <= |page| && NoRepeats(stale)
        invariant forall k :: k in stale <==> k in page[..i] && Stale(k)
      {
        assert page[i] in page && page[i] !in page[..i];
        var one := IsStale(page[i]);
        assert page[..i + 1] == page[..i] + [page[i]];
        if one {
          stale := stale + [page[i]];
        }
        i := i + 1;
      }
      assert page[..i] == page;
    }

    ghost predicate NoRepeats(page: seq<Key>) {
      forall i, j :: 0 <= i < j < |page| ==> page[i] != page[j]
    }

    /** The stale keys of one page of the range, in guarded transactions of at most DELETE_LIMIT deletions; holds
        says how many more of them find the gate and the roots unchanged. Each deletes something, and one that is
        refused would have. */
    method DeleteStale(page: seq<Key>, holds: nat) returns (ok: bool, left: nat)
      requires (forall k :: k in page ==> prefix <= k && k in store) && NoRepeats(page)
      modifies this`store
      ensures OnlyStaleGone(old(store), store)
      ensures forall k :: k in old(store) && k !in store ==> k in page
      ensures ok ==> forall k :: k in page && k in store ==> !Stale(k)
      ensures left <= holds && |store| + holds - left <= |old(store)|
      ensures !ok ==> left == 0 && store != map[]
    {
      ghost var before := store;
      var stale := StaleOf(page);
      ok, left := DeleteAll(stale, holds);
      StaleGone(before, stale, page, ok);
    }

    /** Keys in batches. */
    method DeleteAll(stale: seq<Key>, holds: nat) returns (ok: bool, left: nat)
      requires (forall k :: k in stale ==> k in store) && NoRepeats(stale)
      modifies this`store
      ensures store.Keys <= old(store.Keys) && old(store.Keys) - KeySet(stale) <= store.Keys && (forall k :: k in store ==> store[k] == old(store)[k])
      ensures ok ==> store == old(store) - KeySet(stale)
      ensures left <= holds && |store| + holds - left <= |old(store)|
      ensures !ok ==> left == 0 && store != map[]
    {
      var start := 0;
      left := holds;
      while start < |stale|
        invariant 0 <= start <= |stale| && store == old(store) - KeySet(stale[..start])
        invariant left <= holds && |store| + holds - left <= |old(store)|
      {
        var next := Min(start + DELETE_LIMIT, |stale|);
        StaleBatch(stale, start, next);
        assert stale[start] in stale && stale[start] in store;
        if left == 0 {
          KeysLeft(old(store), stale, start);
          return false, 0;
        }
        ghost var mid := store;
        left := DeleteBatch(KeySet(stale[start..next]), left);
        BatchGone(old(store), mid, store, stale, start, next);
        start := next;
      }
      assert stale[..start] == stale;
      ok := true;
    }

    lemma StaleGone(before: map<Key, Page>, stale: seq<Key>, page: seq<Key>, ok: bool)
      requires forall k :: k in stale <==> k in page && Stale(k)
      requires store.Keys <= before.Keys && before.Keys - KeySet(stale) <= store.Keys && (forall k :: k in store ==> store[k] == before[k])
      requires ok ==> store == before - KeySet(stale)
      ensures OnlyStaleGone(before, store)
      ensures forall k :: k in before && k !in store ==> k in page
      ensures ok ==> forall k :: k in page && k in store ==> !Stale(k)
    {
    }

    lemma BatchGone(before: map<Key, Page>, mid: map<Key, Page>, after: map<Key, Page>, stale: seq<Key>, start: nat, next: nat)
      requires NoRepeats(stale) && start < next <= |stale|
      requires mid == before - KeySet(stale[..start]) && after == mid - KeySet(stale[start..next])
      ensures after == before - KeySet(stale[..next])
    {
      StaleBatch(stale, start, next);
    }

    lemma KeysLeft(before: map<Key, Page>, stale: seq<Key>, start: nat)
      requires start <= |stale| && store == before - KeySet(stale[..start])
      ensures store.Keys <= before.Keys && before.Keys - KeySet(stale) <= store.Keys && forall k :: k in store ==> store[k] == before[k]
    {
      assert forall k :: k in stale[..start] ==> k in stale;
    }

    function KeySet(keys: seq<Key>): set<Key> {
      set k | k in keys
    }

    lemma StaleBatch(stale: seq<Key>, start: nat, next: nat)
      requires NoRepeats(stale) && start < next <= |stale|
      ensures KeySet(stale[..next]) == KeySet(stale[..start]) + KeySet(stale[start..next])
      ensures KeySet(stale[start..next]) !! KeySet(stale[..start]) && stale[start] in KeySet(stale[start..next])
      ensures forall k :: k in KeySet(stale[start..next]) ==> k in stale
    {
      assert stale[..next] == stale[..start] + stale[start..next];
    }

    /** One guarded transaction. */
    method DeleteBatch(batch: set<Key>, holds: nat) returns (left: nat)
      requires batch != {} && batch <= store.Keys && holds > 0
      modifies this`store
      ensures left == holds - 1 && store == old(store) - batch && |store| + 1 <= |old(store)|
    {
      ghost var k :| k in batch;
      Smaller(store, batch, k);
      store, left := store - batch, holds - 1;
    }

    lemma Smaller(m: map<Key, Page>, batch: set<Key>, k: Key)
      requires k in batch && k in m
      ensures |m - batch| + 1 <= |m|
    {
      assert (m - batch).Keys <= m.Keys - {k};
      KeysFewer((m - batch).Keys, m.Keys - {k});
      assert |m.Keys - {k}| == |m.Keys| - 1 && |m.Keys| == |m| && |(m - batch).Keys| == |m - batch|;
    }

    lemma {:induction false} KeysFewer(a: set<Key>, b: set<Key>)
      requires a <= b
      ensures |a| <= |b|
    {
      if a != {} {
        var k :| k in a;
        KeysFewer(a - {k}, b - {k});
      }
    }

    /** A sweep stops only if there are too many page keys, or if its transactions are refused before all that is to go
        has gone. */
    ghost predicate SweepMayStop(cause: Cause, held: map<Key, Page>, holds: nat)
      reads this
    {
      (cause == TooMany && |PageKeys(held)| > MARK_LIMIT) || (cause == Conflict && holds < |held|)
    }

    ghost function PageKeys(held: map<Key, Page>): set<Key> {
      set k | k in held && prefix <= k
    }

    ghost function From(held: map<Key, Page>, cursor: Key, end: Key): set<Key> {
      set k | k in held && InRange(k, cursor, end)
    }

    lemma FromShrinks(before: map<Key, Page>, after: map<Key, Page>, page: seq<Key>, cursor: Key, end: Key, next: Key)
      requires page != [] && after.Keys <= before.Keys && Behind(page, cursor, end, next)
      requires forall k :: k in page ==> k in before && InRange(k, cursor, end)
      ensures From(after, next, end) < From(before, cursor, end)
    {
      assert page[0] in page;
      assert page[0] in From(before, cursor, end) && page[0] !in From(after, next, end);
    }

    /** The range holds page keys only. */
    ghost predicate Within(cursor: Key, end: Key) {
      forall k {:trigger InRange(k, cursor, end)} :: InRange(k, cursor, end) ==> prefix <= k
    }

    /** The range from next on is part of the range from cursor on, without the keys of the page. */
    ghost predicate Behind(page: seq<Key>, cursor: Key, end: Key, next: Key) {
      && (forall k {:trigger InRange(k, next, end)} :: InRange(k, next, end) ==> InRange(k, cursor, end))
      && (forall k {:trigger k in page} :: k in page ==> !InRange(k, next, end))
    }

    /** What is stale still is ahead. */
    ghost predicate CleanBut(held: map<Key, Page>, cursor: Key, end: Key)
      reads this`marked
    {
      forall k {:trigger k in held} :: k in held && prefix <= k && !InRange(k, cursor, end) ==> !Stale(k)
    }

    lemma CleanMore(before: map<Key, Page>, after: map<Key, Page>, cursor: Key, end: Key, next: Key)
      requires CleanBut(before, cursor, end) && OnlyStaleGone(before, after)
      requires forall k :: k in after && InRange(k, cursor, end) && !InRange(k, next, end) ==> !Stale(k)
      ensures CleanBut(after, next, end)
    {
      forall k | k in after && prefix <= k && !InRange(k, next, end) ensures !Stale(k) {
        assert k in before;
      }
    }

    /** No stale page key is left. */
    ghost predicate AllClean(held: map<Key, Page>)
      reads this`marked
    {
      forall k {:trigger k in held} :: k in held && prefix <= k ==> !Stale(k)
    }

    lemma NothingLeft(before: map<Key, Page>, after: map<Key, Page>, page: seq<Key>, cursor: Key, end: Key)
      requires page != [] && after.Keys <= before.Keys && CleanBut(after, page[|page| - 1] + [0], end)
      requires forall k :: k in before && InRange(k, cursor, end) ==> k in page
      requires Behind(page, cursor, end, page[|page| - 1] + [0])
      ensures AllClean(after)
    {
      forall k | k in after && prefix <= k ensures !Stale(k) {
        assert k in before;
      }
    }

    /** The sweep: it deletes stale page keys only, even if it stops half way; completed, it has deleted them all. */
    method Sweep(holds: nat) returns (r: Outcome)
      modifies this`store
      ensures OnlyStaleGone(old(store), store)
      ensures r == Done ==> AllClean(store)
      ensures r.Stopped? ==> SweepMayStop(r.reason, old(store), holds)
    {
      var end := PrefixEnd(prefix);
      var cursor, scanned: nat, left: nat := prefix, 0, holds;
      var more := true;
      ghost var seen: set<Key> := {};
      assert Within(prefix, end);
      while more
        invariant OnlyStaleGone(old(store), store)
        invariant Within(cursor, end)
        invariant CleanBut(store, cursor, end)
        invariant !more ==> AllClean(store)
        invariant left <= holds && |store| + holds - left <= |old(store)|
        invariant seen <= PageKeys(old(store)) && |seen| == scanned && Past(seen, cursor, end)
        decreases more, From(store, cursor, end)
      {
        var page, rest := Range(store.Keys, cursor, end, RANGE_LIMIT);
        if page == [] {
          return Done;
        }
        ghost var was := seen;
        seen := Seen(seen, page, cursor, end);
        scanned := scanned + |page|;
        if scanned > MARK_LIMIT {
          KeysFewer(seen, PageKeys(old(store)));
          return Stopped(TooMany);
        }
        ghost var mid := store;
        var ok;
        ok, left := SweepNext(page, rest, cursor, end, left);
        GoneTransitive(old(store), mid, store);
        if !ok {
          return Stopped(Conflict);
        }
        var last := page[|page| - 1];
        PastMore(was, page, cursor, end, last + [0]);
        FromShrinks(mid, store, page, cursor, end, last + [0]);
        cursor, more := last + [0], rest;
      }
      return Done;
    }

    /** One page of the range, and what is known after it. */
    method SweepNext(page: seq<Key>, rest: bool, cursor: Key, end: Key, holds: nat) returns (ok: bool, left: nat)
      requires page != [] && (forall k :: k in page ==> k in store && InRange(k, cursor, end)) && NoRepeats(page)
      requires forall k :: k in page ==> Leq(k, page[|page| - 1])
      requires forall k :: k in store && InRange(k, cursor, end) && k !in page ==> rest && Less(page[|page| - 1], k)
      requires Within(cursor, end) && CleanBut(store, cursor, end)
      modifies this`store
      ensures OnlyStaleGone(old(store), store)
      ensures left <= holds && |store| + holds - left <= |old(store)|
      ensures !ok ==> left == 0 && store != map[]
      ensures Behind(page, cursor, end, page[|page| - 1] + [0]) && Within(page[|page| - 1] + [0], end)
      ensures ok ==> CleanBut(store, page[|page| - 1] + [0], end) && (!rest ==> AllClean(store))
    {
      ghost var mid := store;
      ok, left := SweepPage(page, cursor, end, holds);
      if ok {
        CleanMore(mid, store, cursor, end, page[|page| - 1] + [0]);
        if !rest {
          NothingLeft(mid, store, page, cursor, end);
        }
      }
    }

    /** One page of the range: its stale keys go, and what is left of the range starts behind it. */
    method SweepPage(page: seq<Key>, cursor: Key, end: Key, holds: nat) returns (ok: bool, left: nat)
      requires page != [] && (forall k :: k in page ==> k in store && InRange(k, cursor, end)) && NoRepeats(page)
      requires forall k :: k in page ==> Leq(k, page[|page| - 1])
      requires Within(cursor, end)
      requires forall k :: k in store && InRange(k, cursor, end) && k !in page ==> Less(page[|page| - 1], k)
      modifies this`store
      ensures OnlyStaleGone(old(store), store)
      ensures ok ==> forall k :: k in store && InRange(k, cursor, end) && !InRange(k, page[|page| - 1] + [0], end) ==> !Stale(k)
      ensures left <= holds && |store| + holds - left <= |old(store)|
      ensures !ok ==> left == 0 && store != map[]
      ensures Behind(page, cursor, end, page[|page| - 1] + [0]) && Within(page[|page| - 1] + [0], end)
    {
      assert page[|page| - 1] in page;
      NextRange(page, cursor, end);
      ok, left := DeleteStale(page, holds);
      forall k | ok && k in store && InRange(k, cursor, end) && !InRange(k, page[|page| - 1] + [0], end) ensures !Stale(k) {
        assert k in page;
      }
    }

    ghost predicate Past(seen: set<Key>, cursor: Key, end: Key) {
      forall k {:trigger k in seen} :: k in seen ==> !InRange(k, cursor, end)
    }

    lemma PastMore(seen: set<Key>, page: seq<Key>, cursor: Key, end: Key, next: Key)
      requires Past(seen, cursor, end) && Behind(page, cursor, end, next)
      ensures Past(seen + KeySet(page), next, end)
    {
    }

    /** The keys of a page are new, and none of them is left in the next range. */
    ghost method Seen(seen: set<Key>, page: seq<Key>, cursor: Key, end: Key) returns (all: set<Key>)
      requires Past(seen, cursor, end) && (forall k :: k in page ==> InRange(k, cursor, end)) && NoRepeats(page)
      ensures all == seen + KeySet(page) && |all| == |seen| + |page|
    {
      all := seen + KeySet(page);
      DistinctSize(page);
    }

    lemma {:induction false} DistinctSize(page: seq<Key>)
      requires NoRepeats(page)
      ensures |KeySet(page)| == |page|
    {
      if page != [] {
        var n := |page| - 1;
        DistinctSize(page[..n]);
        assert page == page[..n] + [page[n]];
        assert KeySet(page) == KeySet(page[..n]) + {page[n]};
      }
    }

    lemma NextRange(page: seq<Key>, cursor: Key, end: Key)
      requires page != [] && (forall k :: k in page ==> Leq(k, page[|page| - 1])) && InRange(page[|page| - 1], cursor, end)
      ensures var last := page[|page| - 1];
        && (forall k :: InRange(k, last + [0], end) <==> Less(last, k) && (end == TOP || Less(k, end)))
        && (forall k :: InRange(k, last + [0], end) ==> InRange(k, cursor, end))
        && (forall k :: k in page ==> !InRange(k, last + [0], end))
    {
      var last := page[|page| - 1];
      forall k ensures InRange(k, last + [0], end) <==> Less(last, k) && (end == TOP || Less(k, end)) {
        Successor(last, k);
      }
      forall k | InRange(k, last + [0], end) ensures InRange(k, cursor, end) {
        LeqTransitive(cursor, last, k);
      }
      forall k | k in page ensures !Less(last, k) {
        LeqTotal(k, last);
      }
    }

    lemma {:induction false} PagesFewer(a: set<Page>, b: set<Page>)
      requires a <= b
      ensures |a| <= |b|
    {
      if a != {} {
        var p :| p in a;
        PagesFewer(a - {p}, b - {p});
      }
    }

    /** A collection stops only if a reachable page is lost, if there are too many pages, or if its transactions are
        refused. */
    ghost predicate MayStop(cause: Cause, held: map<Key, Page>, roots: seq<Page>, holds: nat) {
      || (cause == Lost && exists p :: p in ReachAll(roots) && !(KeyOf(p) in held && held[KeyOf(p)] == p))
      || (cause == TooMany && (|ReachAll(roots)| >= MARK_LIMIT || |PageKeys(held)| > MARK_LIMIT))
      || (cause == Conflict && holds < |held|)
    }

    lemma MarkingStops(cause: Cause, roots: seq<Page>, holds: nat)
      requires GaveUp(cause, ReachAll(roots)) && marked <= ReachAll(roots)
      ensures MayStop(cause, store, roots, holds)
    {
      PagesFewer(marked, ReachAll(roots));
    }

    /** collect_pages: nothing that a root reaches is ever deleted, whether or not the collection completes; if it
        does, every page key that is left belongs to a page that some root reaches. */
    method CollectPages(roots: seq<Page>, holds: nat) returns (r: Outcome)
      requires Valid() && marked == {}
      modifies this
      ensures forall k :: k in store ==> k in old(store) && store[k] == old(store)[k]
      ensures forall k :: k in old(store) && k !in store ==> prefix <= k
      ensures forall p :: p in ReachAll(roots) && old(Held(p)) ==> Held(p)
      ensures r == Done ==> AllHeld(ReachAll(roots))
      ensures r == Done ==> forall k :: k in store && prefix <= k ==> exists p :: p in ReachAll(roots) && k == KeyOf(p)
      ensures r.Stopped? ==> MayStop(r.reason, old(store), roots, holds)
    {
      var ok, cause := MarkRoots(roots);
      if !ok {
        MarkingStops(cause, roots, holds);
        return Stopped(cause);
      }
      ghost var before := store;
      r := Sweep(holds);
      MarkedStay(before, roots);
      if r == Done {
        LeftAreReached(roots);
      }
    }

    lemma MarkedStay(before: map<Key, Page>, roots: seq<Page>)
      requires marked == ReachAll(roots) && OnlyStaleGone(before, store)
      ensures forall p :: p in ReachAll(roots) && KeyOf(p) in before && before[KeyOf(p)] == p ==> Held(p)
    {
      forall p | p in ReachAll(roots) && KeyOf(p) in before && before[KeyOf(p)] == p ensures Held(p) {
        assert KeyOf(p)[|prefix|..] == address(p);
      }
    }

    lemma LeftAreReached(roots: seq<Page>)
      requires marked == ReachAll(roots) && AllClean(store)
      ensures forall k :: k in store && prefix <= k ==> exists p :: p in ReachAll(roots) && k == KeyOf(p)
    {
      forall k | k in store && prefix <= k ensures exists p :: p in ReachAll(roots) && k == KeyOf(p) {
        var p :| p in marked && address(p) == k[|prefix|..];
        assert k == KeyOf(p);
      }
    }
  }
}
