/** Content-addressed pages: a byte string of any length as a tree of small pages, and the cache in front of them. */
module Pages {
  import opened Bytes

  const PAGE_BYTES: nat := 131072
  const FANOUT: nat := 64
  const BATCH: nat := 32
  const BATCH_BYTES: nat := 524288
  const UNIT_BYTES: nat := 16777216
  const CACHE_BYTES: nat := 16777216

  /** Addressing is ideal, so a digest is written as the page it was taken of: equal digests, equal pages. */
  datatype Page = Leaf(data: seq<byte>) | Inner(children: seq<Page>)

  type Result<T> = Outcome<T, Reason>

  datatype Reason = DataLoss | LimitExceeded | ServiceUnavailable

  /** The bytes of a page on the wire: a tag, and the data or the list of 64-digit digests in quotes and commas. */
  function Length(p: Page): nat {
    match p
    case Leaf(data) => 1 + |data|
    case Inner(children) => if children == [] then 3 else 2 + 67 * |children|
  }

  /** The byte string that the tree under a page spells. */
  function Spell(p: Page): seq<byte> {
    match p
    case Leaf(data) => data
    case Inner(children) => SpellAll(children)
  }

  function SpellAll(ps: seq<Page>): seq<byte> {
    if ps == [] then [] else Spell(ps[0]) + SpellAll(ps[1..])
  }

  lemma {:induction false} SpellConcat(a: seq<Page>, b: seq<Page>)
    ensures SpellAll(a + b) == SpellAll(a) + SpellAll(b)
  {
    if a == [] {
      assert a + b == b;
    } else {
      SpellConcat(a[1..], b);
      assert (a + b)[0] == a[0] && (a + b)[1..] == a[1..] + b;
      SpellCons(a + b);
      SpellCons(a);
    }
  }

  lemma SpellCons(ps: seq<Page>)
    requires ps != []
    ensures SpellAll(ps) == Spell(ps[0]) + SpellAll(ps[1..])
  {
  }

  lemma SpellSnoc(a: seq<Page>, p: Page)
    ensures SpellAll(a + [p]) == SpellAll(a) + Spell(p)
  {
    SpellConcat(a, [p]);
    assert SpellAll([p]) == Spell(p);
  }

  /** Every page of the tree fits a page, and no inner page has more than FANOUT children. */
  predicate Bounded(p: Page) {
    && Length(p) <= PAGE_BYTES + 1
    && match p
       case Leaf(_) => true
       case Inner(children) => 0 < |children| <= FANOUT && forall i :: 0 <= i < |children| ==> Bounded(children[i])
  }

  /** Every page of the tree is stored, unaltered, under its own address. */
  predicate Intact(stored: map<Page, Page>, p: Page) {
    && p in stored && stored[p] == p
    && match p
       case Leaf(_) => true
       case Inner(children) => forall i :: 0 <= i < |children| ==> Intact(stored, children[i])
  }

  ghost predicate Grows(a: map<Page, Page>, b: map<Page, Page>) {
    forall d :: d in a && a[d] == d ==> d in b && b[d] == d
  }

  /** These pages are stored, unaltered. */
  ghost predicate Stored(stored: map<Page, Page>, ps: set<Page>) {
    forall p :: p in ps ==> p in stored && stored[p] == p
  }

  /** The pages of a tree. */
  function Nodes(p: Page): set<Page> {
    match p
    case Leaf(_) => {p}
    case Inner(children) => {p} + NodesAll(children)
  }

  function NodesAll(ps: seq<Page>): set<Page> {
    if ps == [] then {} else Nodes(ps[0]) + NodesAll(ps[1..])
  }

  lemma {:induction false} NodesConcat(a: seq<Page>, b: seq<Page>)
    ensures NodesAll(a + b) == NodesAll(a) + NodesAll(b)
  {
    if a == [] {
      assert a + b == b;
    } else {
      NodesConcat(a[1..], b);
      assert (a + b)[0] == a[0] && (a + b)[1..] == a[1..] + b;
    }
  }

  lemma NodesSnoc(ps: seq<Page>, i: nat)
    requires i < |ps|
    ensures NodesAll(ps[..i + 1]) == NodesAll(ps[..i]) + Nodes(ps[i])
  {
    assert ps[..i + 1] == ps[..i] + [ps[i]];
    NodesOneMore(ps[..i], ps[i]);
  }

  lemma NodesOneMore(ps: seq<Page>, p: Page)
    ensures NodesAll(ps + [p]) == NodesAll(ps) + Nodes(p)
  {
    NodesConcat(ps, [p]);
    assert NodesAll([p]) == Nodes(p);
  }

  lemma NodesPart(ps: seq<Page>, i: nat, j: nat)
    requires i <= j <= |ps|
    ensures NodesAll(ps[i..j]) <= NodesAll(ps)
  {
    assert ps == ps[..i] + (ps[i..j] + ps[j..]);
    NodesConcat(ps[..i], ps[i..j] + ps[j..]);
    NodesConcat(ps[i..j], ps[j..]);
  }

  lemma {:induction false} NodesAllIs(ps: seq<Page>, q: Page)
    ensures q in NodesAll(ps) <==> exists i :: 0 <= i < |ps| && q in Nodes(ps[i])
  {
    if ps != [] {
      NodesAllIs(ps[1..], q);
      assert forall i :: 0 <= i < |ps| - 1 ==> ps[1..][i] == ps[i + 1];
    }
  }

  /** A tree is intact exactly if all of its pages are. */
  lemma {:induction false} IntactIsNodes(stored: map<Page, Page>, p: Page)
    ensures Intact(stored, p) <==> Stored(stored, Nodes(p))
    decreases p
  {
    if p.Inner? {
      forall i | 0 <= i < |p.children|
        ensures Intact(stored, p.children[i]) <==> forall q :: q in Nodes(p.children[i]) ==> q in stored && stored[q] == q
        ensures Nodes(p.children[i]) <= NodesAll(p.children)
      {
        IntactIsNodes(stored, p.children[i]);
        forall q | q in Nodes(p.children[i]) ensures q in NodesAll(p.children) {
          NodesAllIs(p.children, q);
        }
      }
      forall q | q in NodesAll(p.children) ensures exists i :: 0 <= i < |p.children| && q in Nodes(p.children[i]) {
        NodesAllIs(p.children, q);
      }
    }
  }

  // ---------------------------------------------------------------- the tree of a byte string

  function Leaves(payload: seq<byte>, from: nat): seq<Page>
    requires from <= |payload|
    decreases |payload| - from
  {
    if from == |payload| then []
    else var next := Min(from + PAGE_BYTES, |payload|); [Leaf(payload[from..next])] + Leaves(payload, next)
  }

  function Groups(ps: seq<Page>, from: nat): seq<Page>
    requires from <= |ps|
    decreases |ps| - from
  {
    if from == |ps| then []
    else var next := Min(from + FANOUT, |ps|); [Inner(ps[from..next])] + Groups(ps, next)
  }

  lemma LeavesNext(done: seq<Page>, payload: seq<byte>, i: nat, next: nat)
    requires i < |payload| && next == Min(i + PAGE_BYTES, |payload|)
    ensures done + Leaves(payload, i) == (done + [Leaf(payload[i..next])]) + Leaves(payload, next)
  {
  }

  lemma GroupsNext(done: seq<Page>, ps: seq<Page>, i: nat, next: nat)
    requires i < |ps| && next == Min(i + FANOUT, |ps|)
    ensures done + Groups(ps, i) == (done + [Inner(ps[i..next])]) + Groups(ps, next)
  {
  }

  lemma {:induction false} GroupsShrink(ps: seq<Page>, from: nat)
    requires from <= |ps|
    ensures FANOUT * |Groups(ps, from)| < |ps| - from + FANOUT
    decreases |ps| - from
  {
    if from < |ps| {
      GroupsShrink(ps, Min(from + FANOUT, |ps|));
    }
  }

  /** The pages of one level are grouped until one inner page holds them all. */
  function Root(ps: seq<Page>): Page
    decreases |ps|
  {
    if |ps| <= FANOUT then Inner(ps) else GroupsShrink(ps, 0); Root(Groups(ps, 0))
  }

  /** The digest of a byte string's tree: a function of the bytes alone. */
  function Tree(payload: seq<byte>): Page {
    if |payload| <= PAGE_BYTES then Leaf(payload) else Root(Leaves(payload, 0))
  }

  lemma {:induction false} LeavesNodes(payload: seq<byte>, from: nat)
    requires from <= |payload|
    ensures NodesAll(Leaves(payload, from)) == SetOf(Leaves(payload, from))
    decreases |payload| - from
  {
    if from < |payload| {
      var next := Min(from + PAGE_BYTES, |payload|);
      LeavesNodes(payload, next);
      SetCons(Leaf(payload[from..next]), Leaves(payload, next));
      NodesCons(Leaf(payload[from..next]), Leaves(payload, next));
    }
  }

  lemma SetCons(p: Page, ps: seq<Page>)
    ensures SetOf([p] + ps) == {p} + SetOf(ps)
  {
  }

  lemma NodesCons(p: Page, ps: seq<Page>)
    ensures NodesAll([p] + ps) == Nodes(p) + NodesAll(ps)
  {
    assert ([p] + ps)[0] == p && ([p] + ps)[1..] == ps;
  }

  /** The pages under a level of groups are those of the level below and the groups themselves. */
  lemma {:induction false} GroupsNodes(ps: seq<Page>, from: nat)
    requires from <= |ps|
    ensures NodesAll(Groups(ps, from)) == NodesAll(ps[from..]) + SetOf(Groups(ps, from))
    decreases |ps| - from
  {
    if from < |ps| {
      var next := Min(from + FANOUT, |ps|);
      var group := Inner(ps[from..next]);
      GroupsNodes(ps, next);
      SetCons(group, Groups(ps, next));
      NodesCons(group, Groups(ps, next));
      assert ps[from..] == ps[from..next] + ps[next..];
      NodesConcat(ps[from..next], ps[next..]);
    }
  }

  lemma {:induction false} RootNodes(ps: seq<Page>)
    ensures NodesAll(ps) <= Nodes(Root(ps))
    decreases |ps|
  {
    if |ps| > FANOUT {
      GroupsShrink(ps, 0);
      RootNodes(Groups(ps, 0));
      GroupsNodes(ps, 0);
      assert ps[0..] == ps;
    }
  }

  lemma LevelNodes(ps: seq<Page>)
    requires |ps| > FANOUT
    ensures NodesAll(Groups(ps, 0)) == NodesAll(ps) + SetOf(Groups(ps, 0)) && NodesAll(Groups(ps, 0)) <= Nodes(Root(ps))
  {
    GroupsShrink(ps, 0);
    GroupsNodes(ps, 0);
    RootNodes(Groups(ps, 0));
    assert ps[0..] == ps;
  }

  lemma {:induction false} LeavesSpell(payload: seq<byte>, from: nat)
    requires from <= |payload|
    ensures SpellAll(Leaves(payload, from)) == payload[from..]
    decreases |payload| - from
  {
    if from < |payload| {
      var next := Min(from + PAGE_BYTES, |payload|);
      LeavesSpell(payload, next);
      assert payload[from..] == payload[from..next] + payload[next..];
    }
  }

  lemma {:induction false} GroupsSpell(ps: seq<Page>, from: nat)
    requires from <= |ps|
    ensures SpellAll(Groups(ps, from)) == SpellAll(ps[from..])
    decreases |ps| - from
  {
    if from < |ps| {
      var next := Min(from + FANOUT, |ps|);
      GroupsSpell(ps, next);
      SpellConcat(ps[from..next], ps[next..]);
      assert ps[from..] == ps[from..next] + ps[next..];
    }
  }

  lemma {:induction false} RootSpell(ps: seq<Page>)
    ensures Spell(Root(ps)) == SpellAll(ps)
    decreases |ps|
  {
    if |ps| > FANOUT {
      GroupsShrink(ps, 0);
      RootSpell(Groups(ps, 0));
      GroupsSpell(ps, 0);
      assert ps[0..] == ps;
    }
  }

  /** The tree of a byte string spells it, whatever its length. */
  lemma TreeSpells(payload: seq<byte>)
    ensures Spell(Tree(payload)) == payload
  {
    if |payload| > PAGE_BYTES {
      LeavesSpell(payload, 0);
      RootSpell(Leaves(payload, 0));
    }
  }

  /** So byte strings and digests determine each other. */
  lemma TreeInjective(a: seq<byte>, b: seq<byte>)
    ensures Tree(a) == Tree(b) <==> a == b
  {
    TreeSpells(a);
    TreeSpells(b);
  }

  ghost predicate AllBounded(ps: seq<Page>) {
    forall i :: 0 <= i < |ps| ==> Bounded(ps[i])
  }

  lemma {:induction false} LeavesBounded(payload: seq<byte>, from: nat)
    requires from <= |payload|
    ensures AllBounded(Leaves(payload, from)) && (from < |payload| ==> Leaves(payload, from) != [])
    decreases |payload| - from
  {
    if from < |payload| {
      LeavesBounded(payload, Min(from + PAGE_BYTES, |payload|));
    }
  }

  lemma {:induction false} GroupsBounded(ps: seq<Page>, from: nat)
    requires from <= |ps| && AllBounded(ps)
    ensures AllBounded(Groups(ps, from)) && (from < |ps| ==> Groups(ps, from) != [])
    decreases |ps| - from
  {
    if from < |ps| {
      var next := Min(from + FANOUT, |ps|);
      GroupsBounded(ps, next);
      assert Bounded(Inner(ps[from..next]));
    }
  }

  lemma {:induction false} RootBounded(ps: seq<Page>)
    requires AllBounded(ps) && ps != []
    ensures Bounded(Root(ps))
    decreases |ps|
  {
    if |ps| > FANOUT {
      GroupsShrink(ps, 0);
      GroupsBounded(ps, 0);
      RootBounded(Groups(ps, 0));
    }
  }

  /** Every page of it fits the page limit, and every inner page has at most FANOUT children. */
  lemma TreeBounded(payload: seq<byte>)
    ensures Bounded(Tree(payload))
  {
    if |payload| > PAGE_BYTES {
      LeavesBounded(payload, 0);
      RootBounded(Leaves(payload, 0));
    }
  }

  // ---------------------------------------------------------------- sizes

  function Total(ps: seq<Page>): nat {
    if ps == [] then 0 else Length(ps[0]) + Total(ps[1..])
  }

  lemma {:induction false} TotalConcat(a: seq<Page>, b: seq<Page>)
    ensures Total(a + b) == Total(a) + Total(b)
  {
    if a == [] {
      assert a + b == b;
    } else {
      TotalConcat(a[1..], b);
      assert (a + b)[0] == a[0] && (a + b)[1..] == a[1..] + b;
    }
  }

  predicate Distinct(ps: seq<Page>) {
    forall i, j :: 0 <= i < j < |ps| ==> ps[i] != ps[j]
  }

  lemma TotalWithout(ps: seq<Page>, i: nat)
    requires i < |ps|
    ensures Total(ps[..i] + ps[i + 1..]) + Length(ps[i]) == Total(ps)
  {
    TotalConcat(ps[..i], ps[i..]);
    TotalConcat(ps[..i], ps[i + 1..]);
    assert ps == ps[..i] + ps[i..] && ps[i..][1..] == ps[i + 1..];
  }

  /** The cache's order without one entry. */
  function Minus(ps: seq<Page>, p: Page): seq<Page> {
    if ps == [] then [] else if ps[0] == p then ps[1..] else [ps[0]] + Minus(ps[1..], p)
  }

  lemma {:induction false} MinusAt(ps: seq<Page>, i: nat)
    requires Distinct(ps) && i < |ps|
    ensures Minus(ps, ps[i]) == ps[..i] + ps[i + 1..]
  {
    if i > 0 {
      assert ps[1..][i - 1] == ps[i];
      MinusAt(ps[1..], i - 1);
    }
  }

  lemma {:induction false} MinusNone(ps: seq<Page>, p: Page)
    requires p !in ps
    ensures Minus(ps, p) == ps
  {
    if ps != [] {
      MinusNone(ps[1..], p);
    }
  }

  /** The first k entries have gone, and no fewer would have been enough. */
  ghost predicate Trimmed(all: seq<Page>, k: nat, order: seq<Page>) {
    k <= |all| && order == all[k..] && (k > 0 ==> Total(all[k - 1..]) > CACHE_BYTES)
  }

  lemma WithoutOne(ps: seq<Page>, i: nat)
    requires Distinct(ps) && i < |ps|
    ensures Distinct(ps[..i] + ps[i + 1..])
    ensures forall x :: x in ps[..i] + ps[i + 1..] <==> x in ps && x != ps[i]
  {
    var rest := ps[..i] + ps[i + 1..];
    forall k | 0 <= k < |rest| ensures rest[k] == ps[if k < i then k else k + 1] {
    }
    forall x | x in ps && x != ps[i] ensures x in rest {
      var k :| 0 <= k < |ps| && ps[k] == x;
      assert rest[if k < i then k else k - 1] == x;
    }
  }

  lemma TotalSnoc(ps: seq<Page>, p: Page)
    ensures Total(ps + [p]) == Total(ps) + Length(p)
  {
    TotalConcat(ps, [p]);
    assert Total([p]) == Length(p);
  }

  /** The bytes of a set of pages. */
  ghost function SizeOf(ps: set<Page>): nat {
    if ps == {} then 0 else var p :| p in ps; Length(p) + SizeOf(ps - {p})
  }

  lemma {:induction false} SizeRemove(ps: set<Page>, p: Page)
    requires p in ps
    ensures SizeOf(ps) == Length(p) + SizeOf(ps - {p})
    decreases |ps|
  {
    var q :| q in ps && SizeOf(ps) == Length(q) + SizeOf(ps - {q});
    if q != p {
      SizeRemove(ps - {q}, p);
      SizeRemove(ps - {p}, q);
      assert ps - {q} - {p} == ps - {p} - {q};
    }
  }

  lemma {:induction false} SizeGrows(a: set<Page>, b: set<Page>)
    requires a <= b
    ensures SizeOf(a) <= SizeOf(b)
    decreases |a|
  {
    if a != {} {
      var p :| p in a;
      SizeRemove(a, p);
      SizeRemove(b, p);
      SizeGrows(a - {p}, b - {p});
    }
  }

  function SetOf(ps: seq<Page>): set<Page> {
    set p | p in ps
  }

  lemma OneMorePage(before: seq<Page>, p: Page, rest: seq<Page>)
    ensures SetOf(before + [p]) == SetOf(before) + {p}
    ensures SetOf(before) <= SetOf((before + [p]) + rest) && p in SetOf((before + [p]) + rest)
  {
  }

  lemma {:induction false} SizeIsTotal(ps: seq<Page>)
    requires Distinct(ps)
    ensures SizeOf(SetOf(ps)) == Total(ps)
  {
    if ps != [] {
      SizeRemove(SetOf(ps), ps[0]);
      assert SetOf(ps) - {ps[0]} == SetOf(ps[1..]);
      SizeIsTotal(ps[1..]);
    }
  }

  // ---------------------------------------------------------------- what a unit takes in

  /** A unit that had these pages has taken in all of pages that were not cached, and its limit still holds. */
  ghost predicate Took(cached: set<Page>, before: set<Page>, pages: set<Page>, after: set<Page>) {
    after == before + (pages - cached) && (pages <= cached || SizeOf(after) <= UNIT_BYTES)
  }

  /** It cannot: something has to be taken in, and is too much. */
  ghost predicate Overflows(cached: set<Page>, before: set<Page>, pages: set<Page>) {
    !(pages <= cached) && SizeOf(before + (pages - cached)) > UNIT_BYTES
  }

  lemma TookMore(cached: set<Page>, before: set<Page>, a: set<Page>, mid: set<Page>, b: set<Page>, after: set<Page>)
    requires Took(cached, before, a, mid) && Took(cached, mid, b, after)
    ensures Took(cached, before, a + b, after)
  {
    assert before + ((a + b) - cached) == (before + (a - cached)) + (b - cached);
    if b <= cached {
      assert b - cached == {} && after == mid;
    }
  }

  lemma OverflowsMore(cached: set<Page>, before: set<Page>, a: set<Page>, mid: set<Page>, b: set<Page>, all: set<Page>)
    requires Took(cached, before, a, mid) && Overflows(cached, mid, b) && a <= all && b <= all
    ensures Overflows(cached, before, all)
  {
    SizeGrows(mid + (b - cached), before + (all - cached));
  }

  /** The two exclude each other. */
  lemma TookOrOverflows(cached: set<Page>, before: set<Page>, pages: set<Page>, after: set<Page>)
    requires after == before + (pages - cached)
    ensures Took(cached, before, pages, after) <==> !Overflows(cached, before, pages)
  {
  }

  /** What will be stored once the unit's pages are. */
  function Coming(stored: map<Page, Page>, unit: seq<Page>): map<Page, Page> {
    stored + map d | d in unit :: d
  }

  // ---------------------------------------------------------------- the store

  /** One process's view of the shared pages: unit holds the new pages of the write unit at work, in the order
      they were made; order is the cache's, oldest entry first. */
  class PageStore {
    var stored: map<Page, Page>
    var cache: map<Page, Page>
    var order: seq<Page>
    var cacheSize: nat
    var unit: seq<Page>

    /** The cache holds stored pages only, each under its own address, and its counter is the sum of its entries. */
    ghost predicate Valid()
      reads this
    {
      && Mirrors() && cacheSize <= CACHE_BYTES
      && Distinct(unit) && (forall d :: d in unit ==> Length(d) <= PAGE_BYTES + 1)
    }

    ghost predicate Mirrors()
      reads this
    {
      && Distinct(order) && (forall d :: d in cache <==> d in order)
      && (forall d :: d in cache ==> cache[d] == d && d in stored && stored[d] == d)
      && cacheSize == Total(order)
    }

    constructor (pages: map<Page, Page>)
      ensures Valid() && stored == pages && unit == []
    {
      stored, cache, order, cacheSize, unit := pages, map[], [], 0, [];
    }

    /** Others write pages meanwhile; what is stored under its address stays. */
    method Others(pages: map<Page, Page>)
      requires Valid() && Grows(stored, pages)
      modifies this`stored
      ensures Valid() && stored == pages
    {
      stored := pages;
    }

    method Evict(i: nat)
      requires Mirrors() && i < |order|
      modifies this`cache, this`order, this`cacheSize
      ensures Mirrors() && order == old(order[..i] + order[i + 1..])
      ensures forall x :: x in cache <==> x in old(cache) && x != old(order[i])
    {
      TotalWithout(order, i);
      WithoutOne(order, i);
      cacheSize := cacheSize - Length(cache[order[i]]);
      cache := cache - {order[i]};
      order := order[..i] + order[i + 1..];
    }

    /** cache_put: the entry becomes the newest, and the oldest ones go, as many as have to for the limit to hold. */
    method CachePut(d: Page)
      requires Valid() && d in stored && stored[d] == d
      modifies this`cache, this`order, this`cacheSize
      ensures Valid()
      ensures exists k: nat :: Trimmed(Minus(old(order), d) + [d], k, order)
    {
      Forget(d);
      Append(d);
      Trim();
    }

    method Forget(d: Page)
      requires Mirrors()
      modifies this`cache, this`order, this`cacheSize
      ensures Mirrors() && d !in cache && order == Minus(old(order), d)
    {
      if d in cache {
        var i :| 0 <= i < |order| && order[i] == d;
        MinusAt(order, i);
        Evict(i);
      } else {
        MinusNone(order, d);
      }
    }

    method Append(d: Page)
      requires Mirrors() && d !in cache && d in stored && stored[d] == d
      modifies this`cache, this`order, this`cacheSize
      ensures Mirrors() && order == old(order) + [d]
    {
      TotalSnoc(order, d);
      cache, order, cacheSize := cache[d := d], order + [d], cacheSize + Length(d);
    }

    method Trim()
      requires Mirrors()
      modifies this`cache, this`order, this`cacheSize
      ensures Mirrors() && cacheSize <= CACHE_BYTES
      ensures exists k: nat :: Trimmed(old(order), k, order)
    {
      ghost var all, k := order, 0;
      while cacheSize > CACHE_BYTES
        invariant Mirrors() && Trimmed(all, k, order)
        decreases |order|
      {
        Evict(0);
        k := k + 1;
      }
    }

    function Units(): set<Page>
      reads this`unit
    {
      SetOf(unit)
    }

    /** The pages that need no more writing than the unit's: those in the cache, and the unit's own. */
    function Have(): set<Page>
      reads this`cache, this`unit
    {
      cache.Keys + Units()
    }

    /** page: a cached page needs no writing, any other joins the unit; exactly if it is not too long, and the unit is
        not once it has joined. */
    method PutPage(p: Page) returns (r: Result<Page>)
      requires Valid()
      modifies this`unit
      ensures Valid() && (unit == old(unit) || unit == old(unit) + [p])
      ensures r.Ok? <==> Length(p) <= PAGE_BYTES + 1 && !Overflows(cache.Keys, old(Units()), {p})
      ensures r.Ok? ==> r.value == p && Took(cache.Keys, old(Units()), {p}, Units())
      ensures r.Err? ==> r.reason == LimitExceeded
    {
      if Length(p) > PAGE_BYTES + 1 {
        return Err(LimitExceeded);
      }
      if p !in cache {
        if p !in unit {
          unit := unit + [p];
        }
        SizeIsTotal(unit);
        assert Units() == old(Units()) + ({p} - cache.Keys);
        if Total(unit) > UNIT_BYTES {
          return Err(LimitExceeded);
        }
      }
      return Ok(p);
    }

    method PutLeaves(payload: seq<byte>) returns (r: Result<seq<Page>>)
      requires Valid()
      modifies this`unit
      ensures Valid() && old(Units()) <= Units()
      ensures r.Ok? ==> r.value == Leaves(payload, 0) && Took(cache.Keys, old(Units()), SetOf(r.value), Units())
      ensures r.Err? ==> r.reason == LimitExceeded && Overflows(cache.Keys, old(Units()), SetOf(Leaves(payload, 0)))
    {
      var children, i := [], 0;
      while i < |payload|
        invariant 0 <= i <= |payload| && Valid() && old(Units()) <= Units() && Took(cache.Keys, old(Units()), SetOf(children), Units())
        invariant children + Leaves(payload, i) == Leaves(payload, 0)
      {
        var next := Min(i + PAGE_BYTES, |payload|);
        LeavesNext(children, payload, i, next);
        ghost var mid := Units();
        var child := PutPage(Leaf(payload[i..next]));
        OneMorePage(children, Leaf(payload[i..next]), Leaves(payload, next));
        if child.Err? {
          OverflowsMore(cache.Keys, old(Units()), SetOf(children), mid, {Leaf(payload[i..next])}, SetOf(Leaves(payload, 0)));
          return Err(child.reason);
        }
        TookMore(cache.Keys, old(Units()), SetOf(children), mid, {child.value}, Units());
        children, i := children + [child.value], next;
      }
      return Ok(children);
    }

    method PutGroups(children: seq<Page>) returns (r: Result<seq<Page>>)
      requires Valid()
      modifies this`unit
      ensures Valid() && old(Units()) <= Units()
      ensures r.Ok? ==> r.value == Groups(children, 0) && Took(cache.Keys, old(Units()), SetOf(r.value), Units())
      ensures r.Err? ==> r.reason == LimitExceeded && Overflows(cache.Keys, old(Units()), SetOf(Groups(children, 0)))
    {
      var groups, i := [], 0;
      while i < |children|
        invariant 0 <= i <= |children| && Valid() && old(Units()) <= Units() && Took(cache.Keys, old(Units()), SetOf(groups), Units())
        invariant groups + Groups(children, i) == Groups(children, 0)
      {
        var next := Min(i + FANOUT, |children|);
        GroupsNext(groups, children, i, next);
        ghost var mid := Units();
        var group := PutPage(Inner(children[i..next]));
        OneMorePage(groups, Inner(children[i..next]), Groups(children, next));
        if group.Err? {
          OverflowsMore(cache.Keys, old(Units()), SetOf(groups), mid, {Inner(children[i..next])}, SetOf(Groups(children, 0)));
          return Err(group.reason);
        }
        TookMore(cache.Keys, old(Units()), SetOf(groups), mid, {group.value}, Units());
        groups, i := groups + [group.value], next;
      }
      return Ok(groups);
    }

    /** blob: the result is the tree of the bytes, and the unit has taken in every page of it that is not cached. It
        fails only if these are too many for the unit. */
    method Blob(payload: seq<byte>) returns (r: Result<Page>)
      requires Valid()
      modifies this`unit
      ensures Valid() && old(Have()) <= Have()
      ensures r.Ok? <==> !Overflows(cache.Keys, old(Units()), Nodes(Tree(payload)))
      ensures r.Ok? ==> r.value == Tree(payload) && Took(cache.Keys, old(Units()), Nodes(Tree(payload)), Units())
      ensures r.Ok? ==> Nodes(r.value) <= Have()
      ensures r.Err? ==> r.reason == LimitExceeded
    {
      ghost var before, all := Units(), Nodes(Tree(payload));
      if |payload| <= PAGE_BYTES {
        r := PutPage(Leaf(payload));
        return;
      }
      var level := PutLeaves(payload);
      LeavesNodes(payload, 0);
      RootNodes(Leaves(payload, 0));
      if level.Err? {
        OverflowsMore(cache.Keys, before, {}, before, NodesAll(Leaves(payload, 0)), all);
        return Err(level.reason);
      }
      r := PutLevels(level.value, before, all);
    }

    /** Levels of groups, until one inner page holds them all. */
    method PutLevels(leaves: seq<Page>, ghost before: set<Page>, ghost all: set<Page>) returns (r: Result<Page>)
      requires Valid() && all == Nodes(Root(leaves)) && Took(cache.Keys, before, NodesAll(leaves), Units())
      modifies this`unit
      ensures Valid() && old(Units()) <= Units()
      ensures r.Ok? ==> r.value == Root(leaves) && Took(cache.Keys, before, all, Units())
      ensures r.Err? ==> r.reason == LimitExceeded && Overflows(cache.Keys, before, all)
    {
      var children := leaves;
      while |children| > FANOUT
        invariant Valid() && old(Units()) <= Units() && Root(children) == Root(leaves)
        invariant Took(cache.Keys, before, NodesAll(children), Units())
        decreases |children|
      {
        GroupsShrink(children, 0);
        var level := PutLevel(children, before, all);
        if level.Err? {
          return Err(level.reason);
        }
        children := level.value;
      }
      r := PutTop(children, before, all);
    }

    method PutLevel(children: seq<Page>, ghost before: set<Page>, ghost all: set<Page>) returns (r: Result<seq<Page>>)
      requires Valid() && |children| > FANOUT && all == Nodes(Root(children)) && Took(cache.Keys, before, NodesAll(children), Units())
      modifies this`unit
      ensures Valid() && old(Units()) <= Units()
      ensures r.Ok? ==> r.value == Groups(children, 0) && Took(cache.Keys, before, NodesAll(r.value), Units())
      ensures r.Err? ==> r.reason == LimitExceeded && Overflows(cache.Keys, before, all)
    {
      LevelNodes(children);
      ghost var mid := Units();
      r := PutGroups(children);
      if r.Err? {
        OverflowsMore(cache.Keys, before, NodesAll(children), mid, SetOf(Groups(children, 0)), all);
      } else {
        TookMore(cache.Keys, before, NodesAll(children), mid, SetOf(r.value), Units());
      }
    }

    method PutTop(children: seq<Page>, ghost before: set<Page>, ghost all: set<Page>) returns (r: Result<Page>)
      requires Valid() && |children| <= FANOUT && all == Nodes(Inner(children)) && Took(cache.Keys, before, NodesAll(children), Units())
      modifies this`unit
      ensures Valid() && old(Units()) <= Units()
      ensures r.Ok? ==> r.value == Inner(children) && Took(cache.Keys, before, all, Units())
      ensures r.Err? ==> r.reason == LimitExceeded && Overflows(cache.Keys, before, all)
    {
      ghost var mid := Units();
      r := PutPage(Inner(children));
      assert all == NodesAll(children) + {Inner(children)};
      if r.Ok? {
        TookMore(cache.Keys, before, NodesAll(children), mid, {Inner(children)}, Units());
      } else {
        OverflowsMore(cache.Keys, before, NodesAll(children), mid, {Inner(children)}, all);
      }
    }

    /** One transaction of page writes, within etcd's limits on operations and bytes. */
    method PutBatch(batch: seq<Page>)
      requires Valid() && |batch| <= BATCH && Total(batch) <= BATCH_BYTES
      requires forall d :: d in batch ==> Length(d) <= PAGE_BYTES + 1
      modifies this`stored, this`cache, this`order, this`cacheSize
      ensures Valid() && Grows(old(stored), stored) && stored == Coming(old(stored), batch)
    {
      stored := Coming(stored, batch);
      var i := 0;
      while i < |batch|
        invariant 0 <= i <= |batch| && Valid() && stored == Coming(old(stored), batch)
      {
        CachePut(batch[i]);
        i := i + 1;
      }
    }

    predicate Saved(d: Page)
      reads this`stored
    {
      d in stored && stored[d] == d
    }

    /** persist_pages: the unit's pages go out in batches; calls says how many transactions get through. If all of
        them do, every page of the unit is stored, and there never are more of them than pages; if not, what is stored
        is still intact. */
    method Persist(calls: nat) returns (r: Result<()>)
      requires Valid()
      modifies this`stored, this`cache, this`order, this`cacheSize
      ensures Valid() && Grows(old(stored), stored)
      ensures r.Ok? ==> forall d :: d in unit ==> Saved(d)
      ensures r.Err? ==> r.reason == ServiceUnavailable && calls < |unit|
    {
      var batch, size, i, sent := [], 0, 0, 0;
      while i < |unit|
        invariant 0 <= i <= |unit| && Valid() && Grows(old(stored), stored)
        invariant size == Total(batch) <= BATCH_BYTES && |batch| <= BATCH && sent + |batch| <= i
        invariant forall d :: d in batch ==> Length(d) <= PAGE_BYTES + 1
        invariant forall k {:trigger unit[k]} :: 0 <= k < i ==> unit[k] in batch || Saved(unit[k])
      {
        if |batch| >= BATCH || size + Length(unit[i]) > BATCH_BYTES {
          if sent == calls {
            return Err(ServiceUnavailable);
          }
          PutBatch(batch);
          sent, batch, size := sent + 1, [], 0;
        }
        TotalSnoc(batch, unit[i]);
        batch, size := batch + [unit[i]], size + Length(unit[i]);
        i := i + 1;
      }
      if batch != [] {
        if sent == calls {
          return Err(ServiceUnavailable);
        }
        PutBatch(batch);
      }
      return Ok(());
    }

    /** read_blob: it succeeds exactly if every page of the tree is stored unaltered, and then spells it. */
    method ReadBlob(d: Page) returns (r: Result<seq<byte>>)
      requires Valid()
      modifies this`cache, this`order, this`cacheSize
      ensures Valid()
      ensures r.Ok? <==> Intact(stored, d)
      ensures r == if Intact(stored, d) then Ok(Spell(d)) else Err(DataLoss)
      decreases d
    {
      var payload;
      if d in cache {
        payload := cache[d];
      } else {
        if !(d in stored && stored[d] == d) {
          return Err(DataLoss);
        }
        payload := stored[d];
        CachePut(d);
      }
      match payload {
        case Leaf(data) =>
          return Ok(data);
        case Inner(children) =>
          var bytes, i := [], 0;
          assert children[..0] == [];
          while i < |children|
            invariant 0 <= i <= |children| && Valid() && d == Inner(children)
            invariant bytes == SpellAll(children[..i]) && forall k :: 0 <= k < i ==> Intact(stored, children[k])
          {
            var part := ReadBlob(children[i]);
            if part.Err? {
              return Err(DataLoss);
            }
            assert children[..i + 1] == children[..i] + [children[i]];
            SpellSnoc(children[..i], children[i]);
            bytes, i := bytes + part.value, i + 1;
          }
          assert children[..i] == children;
          return Ok(bytes);
      }
    }

    /** What is written can be read back: reading undoes blob for every byte string that the unit has room for, if
        the store can be reached. */
    method SaveAndLoad(payload: seq<byte>, calls: nat) returns (r: Result<seq<byte>>)
      requires Valid()
      modifies this
      ensures Valid()
      ensures r.Ok? ==> r.value == payload
      ensures r.Err? ==> r.reason == LimitExceeded || r.reason == ServiceUnavailable
      ensures r.Err? && r.reason == LimitExceeded ==> Overflows(old(cache.Keys), old(Units()), Nodes(Tree(payload)))
      ensures r.Err? && r.reason == ServiceUnavailable ==> calls < |unit|
    {
      var digest := Blob(payload);
      if digest.Err? {
        return Err(digest.reason);
      }
      var persisted := Persist(calls);
      if persisted.Err? {
        return Err(persisted.reason);
      }
      IntactIsNodes(stored, digest.value);
      TreeSpells(payload);
      r := ReadBlob(digest.value);
    }
  }
}
