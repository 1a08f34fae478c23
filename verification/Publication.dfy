/** Publication of metadata: many writers, one root, and any delivery of any request. */
module Publication {
  import opened Bytes
  import Pages

  type Owner = nat
  type Lease = nat
  type Token = nat
  type Name = nat

  /** Addressing is ideal, so a page is its own address. */
  type Address = Pages.Page

  /** A kind and an identity. */
  datatype Key = Key(kind: string, id: string)

  /** An encoded record. */
  type Text = seq<byte>

  /** The records that a root holds, by key. */
  type View = map<Key, Text>

  /** What a unit puts or deletes. */
  type Changes = map<Key, Option<Text>>

  /** The map after a unit's puts and deletes. */
  function Apply(changes: Changes, view: View): View {
    map k | k in view.Keys + changes.Keys && (if k in changes then changes[k].Some? else k in view) ::
      if k in changes then changes[k].value else view[k]
  }

  /** A root digest: it fixes a view, and the pages that it reaches through its text, its buckets and its records. */
  datatype Root = Root(view: View, pages: set<Address>)

  /** What flushing a unit over base gives: the root of the changed map, which is base itself if there was one and
      nothing changed; what it reaches was reached by base, was in the cache when it would have been written, or comes with the unit. */
  predicate Flushed(base: Root, changes: Changes, root: Root, cached: set<Address>, added: set<Address>) {
    && root.view == Apply(changes, base.view)
    && (root.view == base.view && base != EMPTY ==> root == base)
    && root.pages <= base.pages + cached + added
  }

  /** mod is the revision at which the root key was last put. */
  datatype Versioned = Versioned(root: Root, mod: nat)

  datatype Gate = Free | Held(owner: Owner, lease: Lease)

  /** The value of a lease-backed key: who holds it, and the lease that it lives by. */
  datatype Cell = Cell(token: Token, lease: Lease)

  datatype Marker = Marker(root: Root, lease: Lease)

  /** A unit's one commit transaction. changes is what it did to the root it read; it does not travel. */
  datatype Commit = Commit(owner: Owner, lease: Lease, base: nat, guards: map<Name, Token>, effects: map<Name, Option<Cell>>,
                           changes: Changes, root: Root, previous: Option<Owner>)

  datatype Acquire = Acquire(owner: Owner, lease: Lease)

  datatype Status =
    | Waiting(lease: Lease)
    | Working(lease: Lease, base: Versioned, required: map<Name, Token>, seen: map<Name, Token>)
    | Saving(lease: Lease, base: Versioned, guards: map<Name, Token>, changes: Changes, root: Root, left: set<Address>)
    | Committing(request: Commit)
    | Checking(request: Commit)
    | Returned(ok: bool)

  /** revision counts transactions; live are the leases that have not run out. */
  datatype Etcd = Etcd(revision: nat, current: Versioned, gate: Gate, live: set<Lease>, cells: map<Name, Cell>,
                       markers: map<Owner, Marker>, stored: set<Address>)

  /** One publication, as history sees it. */
  datatype Entry = Entry(request: Commit, before: Root, after: Root)

  /** granted are the leases ever granted, used the tokens ever sent for a lease key, landed those that a lease key
      has ever had. */
  datatype System = System(etcd: Etcd, acquires: set<Acquire>, commits: set<Commit>, writers: map<Owner, Status>, log: seq<Entry>,
                           granted: set<Lease>, used: set<Token>, landed: set<Token>)

  const EMPTY := Root(map[], {})

  function Init(): System {
    System(Etcd(1, Versioned(EMPTY, 0), Free, {}, map[], map[], {}), {}, {}, map[], [], {}, {}, {})
  }

  // ---------------------------------------------------------------- steps

  datatype Action =
    | Grant(lease: Lease)
    | Begin(owner: Owner, lease: Lease)
    | DeliverAcquire(acquire: Acquire)
    | ReadRoot(owner: Owner, required: map<Name, Token>)
    | SeeLease(owner: Owner, name: Name)
    | Flush(owner: Owner, changes: Changes, root: Root, cached: set<Address>, added: set<Address>)
    | SavePages(owner: Owner, pages: set<Address>)
    | Persist(pages: set<Address>)
    | Send(request: Commit)
    | Deliver(request: Commit, answered: bool)
    | CheckMarker(owner: Owner)
    | GiveUp(owner: Owner)
    | Cleanup(owner: Owner)
    | Expire(lease: Lease)

  /** The tokens that a commit puts under lease keys. */
  function Puts(r: Commit): set<Token> {
    set n | n in r.effects && r.effects[n].Some? :: r.effects[n].value.token
  }

  /** The compares of the commit transaction, and etcd's own demand that the leases it attaches keys to exist. */
  predicate Succeeds(e: Etcd, r: Commit) {
    && e.gate.Held? && e.gate.owner == r.owner
    && e.current.mod == r.base
    && (forall n :: n in r.guards ==> n in e.cells && e.cells[n].token == r.guards[n])
    && r.lease in e.live
    && (forall n :: n in r.effects && r.effects[n].Some? ==> r.effects[n].value.lease in e.live)
  }

  function WithEffects(cells: map<Name, Cell>, effects: map<Name, Option<Cell>>): map<Name, Cell> {
    map n | n in cells.Keys + effects.Keys && (if n in effects then effects[n].Some? else n in cells) ::
      if n in effects then effects[n].value else cells[n]
  }

  /** The transaction's effects, all at one revision: lease keys, marker, root if it changed, gate. */
  function Applied(e: Etcd, r: Commit): Etcd {
    Etcd(e.revision + 1,
      if r.root != e.current.root then Versioned(r.root, e.revision + 1) else e.current,
      Free, e.live, WithEffects(e.cells, r.effects),
      (e.markers - (if r.previous.Some? then {r.previous.value} else {}))[r.owner := Marker(r.root, r.lease)],
      e.stored)
  }

  /** A lease runs out: every key that lives by it goes. */
  function Without(e: Etcd, l: Lease): Etcd {
    e.(revision := e.revision + 1, live := e.live - {l},
       gate := if e.gate.Held? && e.gate.lease == l then Free else e.gate,
       cells := map n | n in e.cells && e.cells[n].lease != l :: e.cells[n],
       markers := map o | o in e.markers && e.markers[o].lease != l :: e.markers[o])
  }

  /** A unit's commit is made of what it read and flushed: the base's revision, the leases it saw, the new root, all of
      whose new pages it has sent to the store; whoever puts a lease key changes the record that names it. */
  predicate Sendable(s: System, r: Commit) {
    && r.owner in s.writers && s.writers[r.owner].Saving?
    && var w := s.writers[r.owner];
    && w.left == {}
    && r.lease == w.lease && r.base == w.base.mod && r.guards == w.guards && r.changes == w.changes && r.root == w.root
    && (r.previous.Some? ==> r.previous.value in s.writers && s.writers[r.previous.value] == Returned(true))
    && Puts(r) !! s.used && (Puts(r) != {} ==> r.root != w.base.root)
    && (forall n :: n in r.effects && r.effects[n].Some? ==> r.effects[n].value.lease in s.granted)
  }

  predicate Enabled(s: System, a: Action) {
    match a
    case Grant(l) => l !in s.granted
    case Begin(o, l) => o !in s.writers && l in s.granted
    case DeliverAcquire(q) => q in s.acquires
    case ReadRoot(o, _) => o in s.writers && s.writers[o].Waiting?
    case SeeLease(o, n) => o in s.writers && s.writers[o].Working? && n in s.etcd.cells
    case Flush(o, changes, root, cached, added) =>
      o in s.writers && s.writers[o].Working? && Flushed(s.writers[o].base.root, changes, root, cached, added) && cached <= s.etcd.stored
    case SavePages(o, pages) => o in s.writers && s.writers[o].Saving? && pages <= s.writers[o].left
    case Persist(_) => true
    case Send(r) => Sendable(s, r)
    case Deliver(r, answered) => r in s.commits && (answered ==> r.owner in s.writers && s.writers[r.owner] == Committing(r))
    case CheckMarker(o) => o in s.writers && s.writers[o].Checking?
    case GiveUp(o) => o in s.writers && !s.writers[o].Returned?
    case Cleanup(o) => o in s.writers && s.writers[o] == Returned(false)
    case Expire(l) => l in s.etcd.live
  }

  function Delivered(s: System, r: Commit, answered: bool): System
    requires answered ==> r.owner in s.writers
  {
    var ok := Succeeds(s.etcd, r);
    s.(etcd := if ok then Applied(s.etcd, r) else s.etcd,
       log := if ok then s.log + [Entry(r, s.etcd.current.root, r.root)] else s.log,
       landed := if ok then s.landed + Puts(r) else s.landed,
       writers := if answered then s.writers[r.owner := if ok then Returned(true) else Checking(r)] else s.writers)
  }

  /** The marker decides whether a commit that was refused had been applied before. */
  predicate MarkerSays(e: Etcd, r: Commit) {
    r.owner in e.markers && e.markers[r.owner].root == r.root
  }

  function Next(s: System, a: Action): System
    requires Enabled(s, a)
  {
    match a
    case Grant(l) => s.(etcd := s.etcd.(live := s.etcd.live + {l}), granted := s.granted + {l})
    case Begin(o, l) => s.(writers := s.writers[o := Waiting(l)], acquires := s.acquires + {Acquire(o, l)})
    case DeliverAcquire(q) =>
      if s.etcd.gate.Free? && q.lease in s.etcd.live
      then s.(etcd := s.etcd.(gate := Held(q.owner, q.lease), revision := s.etcd.revision + 1)) else s
    case ReadRoot(o, required) => s.(writers := s.writers[o := Working(s.writers[o].lease, s.etcd.current, required, map[])])
    case SeeLease(o, n) =>
      var w := s.writers[o];
      s.(writers := s.writers[o := if n in w.seen then w else w.(seen := w.seen[n := s.etcd.cells[n].token])])
    case Flush(o, changes, root, cached, added) =>
      var w := s.writers[o];
      s.(writers := s.writers[o := Saving(w.lease, w.base, w.required + w.seen, changes, root, added)])
    case SavePages(o, pages) =>
      s.(etcd := s.etcd.(stored := s.etcd.stored + pages), writers := s.writers[o := s.writers[o].(left := s.writers[o].left - pages)])
    case Persist(pages) => s.(etcd := s.etcd.(stored := s.etcd.stored + pages))
    case Send(r) => s.(commits := s.commits + {r}, writers := s.writers[r.owner := Committing(r)], used := s.used + Puts(r))
    case Deliver(r, answered) => Delivered(s, r, answered)
    case CheckMarker(o) => s.(writers := s.writers[o := Returned(MarkerSays(s.etcd, s.writers[o].request))])
    case GiveUp(o) => s.(writers := s.writers[o := Returned(false)])
    case Cleanup(o) =>
      if s.etcd.gate.Held? && s.etcd.gate.owner == o
      then s.(etcd := s.etcd.(gate := Free, revision := s.etcd.revision + 1)) else s
    case Expire(l) => s.(etcd := Without(s.etcd, l))
  }

  // ---------------------------------------------------------------- the invariant

  /** Entry i continues the one before it, and applies exactly its unit's changes. */
  ghost predicate Links(log: seq<Entry>, i: nat)
    requires i < |log|
  {
    && log[i].before == (if i == 0 then EMPTY else log[i - 1].after)
    && log[i].after == log[i].request.root
    && log[i].after.view == Apply(log[i].request.changes, log[i].before.view)
  }

  ghost predicate Chain(log: seq<Entry>) {
    forall i {:trigger Links(log, i)} :: 0 <= i < |log| ==> Links(log, i)
  }

  function Last(log: seq<Entry>): Root {
    if log == [] then EMPTY else log[|log| - 1].after
  }

  /** What a base read at revision mod still says about the current root. */
  ghost predicate BaseOk(e: Etcd, base: Versioned) {
    base.mod <= e.current.mod && (base.mod == e.current.mod ==> base == e.current)
  }

  ghost predicate CommitOk(s: System, r: Commit) {
    && r.base <= s.etcd.current.mod
    && (r.base == s.etcd.current.mod ==>
         && r.root.view == Apply(r.changes, s.etcd.current.root.view)
         && (Puts(r) != {} ==> r.root != s.etcd.current.root)
         && Puts(r) !! s.landed)
    && r.root.pages <= s.etcd.stored
    && Puts(r) <= s.used && r.lease in s.granted
    && r.owner in s.writers && !AtWork(s.writers[r.owner])
    && (r.previous.Some? ==> r.previous.value in s.writers && s.writers[r.previous.value] == Returned(true))
  }

  /** The unit has not sent its commit yet. */
  predicate AtWork(w: Status) {
    w.Waiting? || w.Working? || w.Saving?
  }

  ghost predicate EntryOk(s: System, e: Entry) {
    && e.request in s.commits && e.after == e.request.root
    && (e.before != e.after ==> e.request.base < s.etcd.current.mod)
    && (e.before == e.after && e.request.base == s.etcd.current.mod ==> s.etcd.current.root == e.request.root)
  }

  ghost predicate IsApplied(s: System, r: Commit) {
    exists i :: 0 <= i < |s.log| && s.log[i].request == r
  }

  ghost predicate WriterOk(s: System, o: Owner)
    requires o in s.writers
  {
    match s.writers[o]
    case Waiting(l) => l in s.granted
    case Working(l, base, _, seen) =>
      l in s.granted && BaseOk(s.etcd, base) && base.root.pages <= s.etcd.stored && (forall n :: n in seen ==> seen[n] in s.landed)
    case Saving(l, base, _, changes, root, left) =>
      l in s.granted && BaseOk(s.etcd, base) && root.pages <= s.etcd.stored + left && root.view == Apply(changes, base.root.view)
    case Committing(r) => Pending(s, o, r)
    case Checking(r) => Pending(s, o, r)
    case Returned(ok) => ok ==> exists i :: 0 <= i < |s.log| && s.log[i].request.owner == o
  }

  /** Once applied, the marker stands until the gate lease runs out. */
  ghost predicate Pending(s: System, o: Owner, r: Commit) {
    && r in s.commits && r.owner == o
    && (IsApplied(s, r) ==> (if r.lease in s.etcd.live then o in s.etcd.markers && s.etcd.markers[o] == Marker(r.root, r.lease) else o !in s.etcd.markers))
  }

  ghost predicate MarkerOk(s: System, o: Owner)
    requires o in s.etcd.markers
  {
    && s.etcd.markers[o].lease in s.etcd.live
    && exists r :: r in s.commits && r.owner == o && IsApplied(s, r) && s.etcd.markers[o] == Marker(r.root, r.lease)
  }

  /** Two entries of one unit: neither advances the root. */
  ghost predicate Tame(a: Entry, b: Entry) {
    a.request.owner == b.request.owner ==> a.before == a.after && b.before == b.after
  }

  /** A unit advances the root at most once. */
  ghost predicate OnceEach(log: seq<Entry>) {
    forall i, j {:trigger Tame(log[i], log[j])} :: 0 <= i < j < |log| ==> Tame(log[i], log[j])
  }

  ghost predicate LeasesOk(s: System) {
    && s.etcd.live <= s.granted
    && (s.etcd.gate.Held? ==> s.etcd.gate.lease in s.etcd.live)
    && (forall n :: n in s.etcd.cells ==> s.etcd.cells[n].lease in s.etcd.live && s.etcd.cells[n].token in s.landed)
    && s.landed <= s.used
    && s.etcd.current.mod <= s.etcd.revision
    && s.etcd.current.root == Last(s.log) && s.etcd.current.root.pages <= s.etcd.stored
  }

  ghost predicate CommitsApart(s: System) {
    forall q, r {:trigger Apart(q, r)} :: q in s.commits && r in s.commits && q != r ==> Apart(q, r)
  }

  predicate Apart(q: Commit, r: Commit) { q.owner != r.owner && Puts(q) !! Puts(r) }

  ghost predicate CommitsOk(s: System) {
    forall r {:trigger CommitOk(s, r)} :: r in s.commits ==> CommitOk(s, r)
  }

  ghost predicate EntriesOk(s: System) {
    forall i {:trigger EntryOk(s, s.log[i])} :: 0 <= i < |s.log| ==> EntryOk(s, s.log[i])
  }

  ghost predicate WritersOk(s: System) {
    forall o {:trigger WriterOk(s, o)} :: o in s.writers ==> WriterOk(s, o)
  }

  ghost predicate MarkersOk(s: System) {
    forall o {:trigger MarkerOk(s, o)} :: o in s.etcd.markers ==> MarkerOk(s, o)
  }

  ghost predicate Inv(s: System) {
    && Chain(s.log) && OnceEach(s.log) && LeasesOk(s) && CommitsApart(s)
    && CommitsOk(s) && EntriesOk(s) && WritersOk(s) && MarkersOk(s)
  }

  lemma InitInv()
    ensures Inv(Init())
  {
  }

  // ---------------------------------------------------------------- every step keeps it

  /** A unit that has sent its commit never works on it again, and one that has returned is done. */
  predicate Advances(a: Status, b: Status) {
    && ((a.Committing? || a.Checking?) ==> !AtWork(b))
    && (a.Returned? ==> b == a)
  }

  /** Neither commits nor history change. */
  ghost predicate Quiet(s: System, u: System) {
    && u.commits == s.commits && u.log == s.log && u.used == s.used && u.landed == s.landed && s.granted <= u.granted
    && u.etcd.current == s.etcd.current && s.etcd.revision <= u.etcd.revision && s.etcd.stored <= u.etcd.stored
    && u.etcd.live <= u.granted
    && (u.etcd.gate.Held? ==> u.etcd.gate.lease in u.etcd.live)
    && (forall n :: n in u.etcd.cells ==> n in s.etcd.cells && u.etcd.cells[n] == s.etcd.cells[n] && u.etcd.cells[n].lease in u.etcd.live)
    && (forall o :: o in u.etcd.markers ==> o in s.etcd.markers && MarkerStands(s, u, s.etcd.markers[o], u.etcd.markers[o]))
    && (forall o :: o in s.writers ==> o in u.writers && Advances(s.writers[o], u.writers[o]))
  }

  predicate MarkerStands(s: System, u: System, m: Marker, m': Marker) {
    m' == m && (m.lease in s.etcd.live ==> m.lease in u.etcd.live)
  }

  lemma QuietKeeps(s: System, u: System)
    requires Inv(s) && Quiet(s, u) && WritersOk(u)
    ensures Inv(u)
  {
    forall r | r in u.commits ensures CommitOk(u, r) {
      assert CommitOk(s, r);
    }
    forall i | 0 <= i < |u.log| ensures EntryOk(u, u.log[i]) {
      assert EntryOk(s, s.log[i]);
    }
    forall o | o in u.etcd.markers ensures MarkerOk(u, o) {
      assert MarkerOk(s, o);
      var r :| r in s.commits && r.owner == o && IsApplied(s, r) && s.etcd.markers[o] == Marker(r.root, r.lease);
      assert IsApplied(u, r);
    }
  }

  lemma SameWriter(s: System, u: System, o: Owner)
    requires o in s.writers && WriterOk(s, o) && o in u.writers && u.writers[o] == s.writers[o]
    requires u.commits == s.commits && u.log == s.log && u.etcd.current == s.etcd.current && u.etcd.markers == s.etcd.markers
    requires s.granted <= u.granted && s.etcd.stored <= u.etcd.stored && s.landed <= u.landed
    requires forall r :: r in s.commits ==> (r.lease in u.etcd.live <==> r.lease in s.etcd.live)
    ensures WriterOk(u, o)
  {
    match s.writers[o] {
      case Committing(r) => assert IsApplied(u, r) <==> IsApplied(s, r);
      case Checking(r) => assert IsApplied(u, r) <==> IsApplied(s, r);
      case _ =>
    }
  }

  /** The steps of one writer and of the gate. */
  lemma LocalKeeps(s: System, a: Action)
    requires Inv(s) && Enabled(s, a) && (a.Begin? || a.DeliverAcquire? || a.GiveUp? || a.Cleanup?)
    ensures Inv(Next(s, a))
  {
    var u := Next(s, a);
    forall o | o in u.writers ensures WriterOk(u, o) {
      if o in s.writers && u.writers[o] == s.writers[o] {
        assert WriterOk(s, o);
        SameWriter(s, u, o);
      } else if o in s.writers {
        assert WriterOk(s, o);
      }
    }
    QuietKeeps(s, u);
  }

  /** The steps by which a unit reads. */
  lemma ReadsKeep(s: System, a: Action)
    requires Inv(s) && Enabled(s, a) && (a.ReadRoot? || a.SeeLease?)
    ensures Inv(Next(s, a))
  {
    var u := Next(s, a);
    forall o | o in u.writers ensures WriterOk(u, o) {
      assert WriterOk(s, o);
      if u.writers[o] == s.writers[o] {
        SameWriter(s, u, o);
      }
    }
    QuietKeeps(s, u);
  }

  /** The steps that make and store pages. */
  lemma PagesKeep(s: System, a: Action)
    requires Inv(s) && Enabled(s, a) && (a.Flush? || a.SavePages? || a.Persist?)
    ensures Inv(Next(s, a))
  {
    var u := Next(s, a);
    forall o | o in u.writers ensures WriterOk(u, o) {
      assert WriterOk(s, o);
      if u.writers[o] == s.writers[o] {
        SameWriter(s, u, o);
      }
    }
    QuietKeeps(s, u);
  }

  lemma GrantKeeps(s: System, l: Lease)
    requires Inv(s) && Enabled(s, Grant(l))
    ensures Inv(Next(s, Grant(l)))
  {
    var u := Next(s, Grant(l));
    forall r | r in s.commits ensures r.lease != l {
      assert CommitOk(s, r);
    }
    forall o | o in u.writers ensures WriterOk(u, o) {
      assert WriterOk(s, o);
      SameWriter(s, u, o);
    }
    QuietKeeps(s, u);
  }

  lemma CheckKeeps(s: System, o: Owner)
    requires Inv(s) && Enabled(s, CheckMarker(o))
    ensures Inv(Next(s, CheckMarker(o)))
  {
    var u := Next(s, CheckMarker(o));
    assert WriterOk(s, o);
    if MarkerSays(s.etcd, s.writers[o].request) {
      assert MarkerOk(s, o);
      var r :| r in s.commits && r.owner == o && IsApplied(s, r) && s.etcd.markers[o] == Marker(r.root, r.lease);
      var i :| 0 <= i < |s.log| && s.log[i].request == r;
      assert u.log[i].request.owner == o;
    }
    forall x | x in u.writers ensures WriterOk(u, x) {
      if x != o {
        assert WriterOk(s, x);
        SameWriter(s, u, x);
      }
    }
    QuietKeeps(s, u);
  }

  lemma ExpireKeeps(s: System, l: Lease)
    requires Inv(s) && Enabled(s, Expire(l))
    ensures Inv(Next(s, Expire(l)))
  {
    var u := Next(s, Expire(l));
    forall o | o in u.writers ensures WriterOk(u, o) {
      assert WriterOk(s, o);
      if s.writers[o].Committing? || s.writers[o].Checking? {
        var r := s.writers[o].request;
        assert IsApplied(u, r) <==> IsApplied(s, r);
        if o in s.etcd.markers {
          assert MarkerOk(s, o);
        }
      }
    }
    QuietKeeps(s, u);
  }

  lemma SendKeeps(s: System, r: Commit)
    requires Inv(s) && Enabled(s, Send(r))
    ensures Inv(Next(s, Send(r)))
  {
    var u := Next(s, Send(r));
    assert WriterOk(s, r.owner);
    NeverSent(s, r);
    forall q | q in u.commits ensures CommitOk(u, q) {
      if q != r {
        assert CommitOk(s, q);
      }
    }
    forall p, q | p in u.commits && q in u.commits && p != q ensures Apart(p, q) {
      if p != r && q != r {
        assert Apart(p, q);
      } else {
        assert CommitOk(s, if p == r then q else p);
      }
    }
    forall i | 0 <= i < |u.log| ensures EntryOk(u, u.log[i]) {
      assert EntryOk(s, s.log[i]);
    }
    SendOthers(s, u, r);
  }

  /** A unit at work has sent nothing, so nothing of it has been applied. */
  lemma NeverSent(s: System, r: Commit)
    requires Inv(s) && Sendable(s, r)
    ensures r !in s.commits && !IsApplied(s, r)
    ensures forall q :: q in s.commits ==> q.owner != r.owner
  {
    forall q | q in s.commits ensures q.owner != r.owner {
      assert CommitOk(s, q);
    }
    forall i | 0 <= i < |s.log| ensures s.log[i].request != r {
      assert EntryOk(s, s.log[i]);
    }
  }

  lemma SendOthers(s: System, u: System, r: Commit)
    requires Inv(s) && Sendable(s, r) && u == Next(s, Send(r)) && !IsApplied(s, r)
    ensures WritersOk(u) && MarkersOk(u)
  {
    forall o | o in u.writers ensures WriterOk(u, o) {
      if o != r.owner {
        assert WriterOk(s, o);
        if s.writers[o].Committing? || s.writers[o].Checking? {
          assert IsApplied(u, s.writers[o].request) <==> IsApplied(s, s.writers[o].request);
        }
      } else {
        assert IsApplied(u, r) <==> IsApplied(s, r);
      }
    }
    forall o | o in u.etcd.markers ensures MarkerOk(u, o) {
      assert MarkerOk(s, o);
      var q :| q in s.commits && q.owner == o && IsApplied(s, q) && s.etcd.markers[o] == Marker(q.root, q.lease);
      assert IsApplied(u, q);
    }
  }

  // ---------------------------------------------------------------- delivery

  /** The commit transaction goes through. */
  ghost predicate Lands(s: System, u: System, r: Commit, answered: bool) {
    Inv(s) && Enabled(s, Deliver(r, answered)) && Succeeds(s.etcd, r) && u == Next(s, Deliver(r, answered))
  }

  lemma LandLog(s: System, u: System, r: Commit, answered: bool)
    requires Lands(s, u, r, answered)
    ensures Chain(u.log) && OnceEach(u.log) && u.etcd.current.root == Last(u.log) == r.root
    ensures forall q :: IsApplied(u, q) <==> IsApplied(s, q) || q == r
  {
    var n, e := |s.log|, u.log[|s.log|];
    assert CommitOk(s, r);
    forall i | 0 <= i <= n ensures Links(u.log, i) {
      if i < n {
        assert Links(s.log, i);
      }
    }
    forall i, j | 0 <= i < j <= n ensures Tame(u.log[i], u.log[j]) {
      if j < n {
        assert Tame(s.log[i], s.log[j]);
      } else if u.log[i].request.owner == r.owner {
        assert EntryOk(s, s.log[i]);
        assert s.log[i].request != r ==> Apart(s.log[i].request, r);
      }
    }
    forall q ensures IsApplied(u, q) <==> IsApplied(s, q) || q == r {
      if IsApplied(s, q) {
        var i :| 0 <= i < |s.log| && s.log[i].request == q;
        assert u.log[i].request == q;
      }
      assert u.log[n].request == r;
    }
  }

  lemma LandCommits(s: System, u: System, r: Commit, answered: bool)
    requires Lands(s, u, r, answered)
    ensures CommitsOk(u) && EntriesOk(u)
  {
    assert CommitOk(s, r);
    forall q | q in u.commits ensures CommitOk(u, q) {
      assert CommitOk(s, q);
      assert q != r ==> Apart(q, r);
    }
    forall i | 0 <= i < |u.log| ensures EntryOk(u, u.log[i]) {
      if i < |s.log| {
        assert EntryOk(s, s.log[i]) && CommitOk(s, s.log[i].request);
      }
    }
  }

  lemma LandCells(s: System, u: System, r: Commit, answered: bool)
    requires Lands(s, u, r, answered)
    ensures forall n :: n in u.etcd.cells ==> u.etcd.cells[n].lease in u.etcd.live && u.etcd.cells[n].token in u.landed
    ensures u.landed <= u.used
  {
    assert CommitOk(s, r);
  }

  lemma LandWriters(s: System, u: System, r: Commit, answered: bool)
    requires Lands(s, u, r, answered)
    requires forall q :: IsApplied(u, q) <==> IsApplied(s, q) || q == r
    ensures WritersOk(u)
  {
    assert CommitOk(s, r);
    forall o | o in u.writers ensures WriterOk(u, o) {
      assert WriterOk(s, o);
      LandWriter(s, u, r, answered, o);
    }
  }

  lemma LandWriter(s: System, u: System, r: Commit, answered: bool, o: Owner)
    requires Lands(s, u, r, answered) && o in s.writers && WriterOk(s, o) && CommitOk(s, r)
    requires forall q :: IsApplied(u, q) <==> IsApplied(s, q) || q == r
    ensures WriterOk(u, o)
  {
    match u.writers[o] {
      case Committing(q) => assert q != r ==> Apart(q, r);
      case Checking(q) => assert q != r ==> Apart(q, r);
      case Returned(ok) =>
        if ok && s.writers[o] == Returned(true) {
          var i :| 0 <= i < |s.log| && s.log[i].request.owner == o;
          assert u.log[i].request.owner == o;
        } else if ok {
          assert u.log[|s.log|].request.owner == o;
        }
      case _ =>
    }
  }

  lemma LandMarkers(s: System, u: System, r: Commit, answered: bool)
    requires Lands(s, u, r, answered)
    requires forall q :: IsApplied(u, q) <==> IsApplied(s, q) || q == r
    ensures MarkersOk(u)
  {
    forall o | o in u.etcd.markers ensures MarkerOk(u, o) {
      if o == r.owner {
        assert IsApplied(u, r);
      } else {
        assert MarkerOk(s, o);
        var q :| q in s.commits && q.owner == o && IsApplied(s, q) && s.etcd.markers[o] == Marker(q.root, q.lease);
        assert IsApplied(u, q);
      }
    }
  }

  lemma DeliverKeeps(s: System, r: Commit, answered: bool)
    requires Inv(s) && Enabled(s, Deliver(r, answered))
    ensures Inv(Next(s, Deliver(r, answered)))
  {
    var u := Next(s, Deliver(r, answered));
    if Succeeds(s.etcd, r) {
      LandLog(s, u, r, answered);
      LandCommits(s, u, r, answered);
      LandCells(s, u, r, answered);
      LandWriters(s, u, r, answered);
      LandMarkers(s, u, r, answered);
      assert CommitOk(s, r);
    } else {
      RefusedKeeps(s, r, answered);
    }
  }

  lemma RefusedKeeps(s: System, r: Commit, answered: bool)
    requires Inv(s) && Enabled(s, Deliver(r, answered)) && !Succeeds(s.etcd, r)
    ensures Inv(Next(s, Deliver(r, answered)))
  {
    var u := Next(s, Deliver(r, answered));
    forall o | o in u.writers ensures WriterOk(u, o) {
      assert WriterOk(s, o);
      if u.writers[o] == s.writers[o] {
        SameWriter(s, u, o);
      } else {
        assert IsApplied(u, r) <==> IsApplied(s, r);
      }
    }
    QuietKeeps(s, u);
  }

  lemma StepKeeps(s: System, a: Action)
    requires Inv(s) && Enabled(s, a)
    ensures Inv(Next(s, a))
  {
    match a {
      case Grant(l) => GrantKeeps(s, l);
      case Send(r) => SendKeeps(s, r);
      case Deliver(r, answered) => DeliverKeeps(s, r, answered);
      case CheckMarker(o) => CheckKeeps(s, o);
      case Expire(l) => ExpireKeeps(s, l);
      case Flush(_, _, _, _, _) => PagesKeep(s, a);
      case SavePages(_, _) => PagesKeep(s, a);
      case ReadRoot(_, _) => ReadsKeep(s, a);
      case SeeLease(_, _) => ReadsKeep(s, a);
      case Persist(_) => PagesKeep(s, a);
      case _ => LocalKeeps(s, a);
    }
  }

  // ---------------------------------------------------------------- what the store does

  /** A commit that goes through puts and deletes exactly the lease keys that its unit put and deleted, publishes the
      root, leaves the marker, and frees the gate. */
  lemma CommitEffects(s: System, r: Commit, answered: bool, n: Name, o: Owner)
    requires Enabled(s, Deliver(r, answered)) && Succeeds(s.etcd, r)
    ensures var e, f := s.etcd, Next(s, Deliver(r, answered)).etcd;
      && (n in r.effects ==> (n in f.cells <==> r.effects[n].Some?) && (r.effects[n].Some? ==> f.cells[n] == r.effects[n].value))
      && (n !in r.effects ==> (n in f.cells <==> n in e.cells) && (n in e.cells ==> f.cells[n] == e.cells[n]))
      && f.current.root == r.root && f.current.mod == (if r.root == e.current.root then e.current.mod else e.revision + 1)
      && f.gate == Free && f.revision == e.revision + 1 && f.live == e.live && f.stored == e.stored
      && r.owner in f.markers && f.markers[r.owner] == Marker(r.root, r.lease)
      && (o != r.owner ==> (o in f.markers <==> o in e.markers && r.previous != Some(o)) && (o in f.markers ==> f.markers[o] == e.markers[o]))
  {
  }

  /** One that does not changes nothing. */
  lemma RefusalEffects(s: System, r: Commit, answered: bool)
    requires Enabled(s, Deliver(r, answered)) && !Succeeds(s.etcd, r)
    ensures Next(s, Deliver(r, answered)).etcd == s.etcd && Next(s, Deliver(r, answered)).log == s.log
  {
  }

  /** A lease that runs out takes with it exactly the keys that live by it. */
  lemma ExpiryEffects(s: System, l: Lease, n: Name, o: Owner)
    requires Enabled(s, Expire(l))
    ensures var e, f := s.etcd, Next(s, Expire(l)).etcd;
      && f.live == e.live - {l} && f.current == e.current && f.stored == e.stored
      && (n in f.cells <==> n in e.cells && e.cells[n].lease != l) && (n in f.cells ==> f.cells[n] == e.cells[n])
      && (o in f.markers <==> o in e.markers && e.markers[o].lease != l) && (o in f.markers ==> f.markers[o] == e.markers[o])
      && f.gate == (if e.gate.Held? && e.gate.lease == l then Free else e.gate)
  {
  }

  function CellOf(e: Etcd, n: Name): Option<Cell> {
    if n in e.cells then Some(e.cells[n]) else None
  }

  /** A lease key changes only by a commit of a unit that puts or deletes it, or by the end of its lease. */
  lemma KeysChangeExactly(s: System, a: Action, n: Name)
    requires Enabled(s, a) && CellOf(Next(s, a).etcd, n) != CellOf(s.etcd, n)
    ensures (a.Deliver? && Succeeds(s.etcd, a.request) && n in a.request.effects && CellOf(Next(s, a).etcd, n) == a.request.effects[n])
      || (a.Expire? && n in s.etcd.cells && s.etcd.cells[n].lease == a.lease && CellOf(Next(s, a).etcd, n) == None)
  {
    match a {
      case Deliver(r, answered) =>
        if Succeeds(s.etcd, r) {
          CommitEffects(s, r, answered, n, 0);
        } else {
          RefusalEffects(s, r, answered);
        }
      case Expire(l) => ExpiryEffects(s, l, n, 0);
      case _ =>
    }
  }

  // ---------------------------------------------------------------- over every run

  /** The states of a run, under any interleaving of any actions. */
  ghost predicate IsRun(run: seq<System>, actions: seq<Action>) {
    && |run| == |actions| + 1 && run[0] == Init()
    && forall i {:trigger run[i + 1]} {:trigger actions[i]} :: 0 <= i < |actions| ==> Enabled(run[i], actions[i]) && run[i + 1] == Next(run[i], actions[i])
  }

  lemma {:induction false} RunInv(run: seq<System>, actions: seq<Action>, i: nat)
    requires IsRun(run, actions) && i < |run|
    ensures Inv(run[i])
  {
    if i == 0 {
      InitInv();
    } else {
      RunInv(run, actions, i - 1);
      assert run[i - 1 + 1] == Next(run[i - 1], actions[i - 1]);
      StepKeeps(run[i - 1], actions[i - 1]);
    }
  }

  /** The published roots form one chain: each publication starts from the root just before it and applies exactly
      its unit's changes to it, so no update is lost and none is partial; the current root is the last one's. */
  lemma PublishedChain(run: seq<System>, actions: seq<Action>, t: nat, i: nat)
    requires IsRun(run, actions) && t < |run| && i < |run[t].log|
    ensures var log := run[t].log;
      && log[i].before == (if i == 0 then EMPTY else log[i - 1].after)
      && log[i].after.view == Apply(log[i].request.changes, log[i].before.view)
      && run[t].etcd.current.root == log[|log| - 1].after
  {
    RunInv(run, actions, t);
    assert Links(run[t].log, i);
  }

  /** However often its commit is delivered, a unit advances the root at most once. */
  lemma AdvancesOnce(run: seq<System>, actions: seq<Action>, t: nat, i: nat, j: nat)
    requires IsRun(run, actions) && t < |run| && i < j < |run[t].log|
    requires run[t].log[i].request.owner == run[t].log[j].request.owner
    ensures run[t].log[i].before == run[t].log[i].after && run[t].log[j].before == run[t].log[j].after
  {
    RunInv(run, actions, t);
    assert Tame(run[t].log[i], run[t].log[j]);
  }

  /** A unit that returns normally has been applied, by the answer or by its marker. */
  lemma NormalReturnMeansApplied(run: seq<System>, actions: seq<Action>, t: nat, o: Owner) returns (i: nat)
    requires IsRun(run, actions) && t < |run| && o in run[t].writers && run[t].writers[o] == Returned(true)
    ensures i < |run[t].log| && run[t].log[i].request.owner == o
  {
    RunInv(run, actions, t);
    assert WriterOk(run[t], o);
    i :| 0 <= i < |run[t].log| && run[t].log[i].request.owner == o;
  }

  /** The marker's verdict on a unit that had been applied: it is recognised exactly as long as its gate lease
      lives. Once the lease has run out, an applied unit is reported as a conflict. */
  lemma VerdictOnApplied(run: seq<System>, actions: seq<Action>, t: nat, o: Owner)
    requires IsRun(run, actions) && t < |run| && o in run[t].writers && run[t].writers[o].Checking?
    requires IsApplied(run[t], run[t].writers[o].request)
    ensures MarkerSays(run[t].etcd, run[t].writers[o].request) <==> run[t].writers[o].request.lease in run[t].etcd.live
  {
    RunInv(run, actions, t);
    assert WriterOk(run[t], o);
  }

  /** What a unit returns once it has looked for its marker: success exactly if it was applied and its gate lease lives. */
  lemma VerdictExactly(run: seq<System>, actions: seq<Action>, t: nat, o: Owner)
    requires IsRun(run, actions) && t < |actions| && actions[t] == CheckMarker(o)
    ensures o in run[t].writers && run[t].writers[o].Checking?
    ensures var r := run[t].writers[o].request;
      o in run[t + 1].writers && run[t + 1].writers[o] == Returned(IsApplied(run[t], r) && r.lease in run[t].etcd.live)
  {
    assert Enabled(run[t], actions[t]) && run[t + 1] == Next(run[t], actions[t]);
    if IsApplied(run[t], run[t].writers[o].request) {
      VerdictOnApplied(run, actions, t, o);
    } else {
      VerdictOnRefused(run, actions, t, o);
    }
  }

  /** What a unit makes of the answer to its commit: success if it went through, and a look for its marker if not. */
  lemma AnswerExactly(run: seq<System>, actions: seq<Action>, t: nat, r: Commit)
    requires IsRun(run, actions) && t < |actions| && actions[t] == Deliver(r, true)
    ensures r.owner in run[t + 1].writers
    ensures run[t + 1].writers[r.owner] == if Succeeds(run[t].etcd, r) then Returned(true) else Checking(r)
  {
    assert Enabled(run[t], actions[t]) && run[t + 1] == Next(run[t], actions[t]);
  }

  /** And a unit that had not been applied never is taken for one that was. */
  lemma VerdictOnRefused(run: seq<System>, actions: seq<Action>, t: nat, o: Owner)
    requires IsRun(run, actions) && t < |run| && o in run[t].writers && run[t].writers[o].Checking?
    requires !IsApplied(run[t], run[t].writers[o].request)
    ensures !MarkerSays(run[t].etcd, run[t].writers[o].request)
  {
    RunInv(run, actions, t);
    assert WriterOk(run[t], o);
    if o in run[t].etcd.markers {
      assert MarkerOk(run[t], o);
      var r :| r in run[t].commits && r.owner == o && IsApplied(run[t], r) && run[t].etcd.markers[o] == Marker(r.root, r.lease);
      OneCommitEach(run[t], r, run[t].writers[o].request);
    }
  }

  lemma OneCommitEach(s: System, q: Commit, r: Commit)
    requires CommitsApart(s) && q in s.commits && r in s.commits && q.owner == r.owner
    ensures q == r
  {
    assert q != r ==> Apart(q, r);
  }

  /** A token that has landed and is gone from its key never comes back: what a step leaves under a landed token
      was there before. So a fence seen and compared again has been held all the time between. */
  lemma TokensNeverReturn(run: seq<System>, actions: seq<Action>, t: nat, n: Name)
    requires IsRun(run, actions) && t + 1 < |run| && n in run[t + 1].etcd.cells && run[t + 1].etcd.cells[n].token in run[t].landed
    ensures n in run[t].etcd.cells && run[t].etcd.cells[n] == run[t + 1].etcd.cells[n]
  {
    RunInv(run, actions, t);
    var s, a := run[t], actions[t];
    assert run[t + 1] == Next(s, a);
    if a.Deliver? {
      assert CommitOk(s, a.request);
      assert forall m :: m in a.request.effects && a.request.effects[m].Some? ==> a.request.effects[m].value.token in Puts(a.request);
    }
  }

  lemma {:induction false} LandedGrows(run: seq<System>, actions: seq<Action>, t: nat, u: nat)
    requires IsRun(run, actions) && t <= u < |run|
    ensures run[t].landed <= run[u].landed
    decreases u
  {
    if t < u {
      LandedGrows(run, actions, t, u - 1);
      assert run[u - 1 + 1] == Next(run[u - 1], actions[u - 1]);
    }
  }

  /** A lease key that at u bears a token which had landed by t has been the same, by the same lease, ever since. */
  lemma {:induction false} HeldSince(run: seq<System>, actions: seq<Action>, t: nat, k: nat, u: nat, n: Name)
    requires IsRun(run, actions) && t <= k <= u < |run|
    requires n in run[u].etcd.cells && run[u].etcd.cells[n].token in run[t].landed
    ensures n in run[k].etcd.cells && run[k].etcd.cells[n] == run[u].etcd.cells[n]
    decreases u - k
  {
    if k < u {
      HeldSince(run, actions, t, k + 1, u, n);
      LandedGrows(run, actions, t, k);
      TokensNeverReturn(run, actions, k, n);
    }
  }

  /** What a unit saw under n is what its commit compares. */
  ghost predicate Carries(s: System, o: Owner, n: Name, token: Token) {
    && o in s.writers
    && (match s.writers[o]
        case Waiting(_) => false
        case Working(_, _, _, seen) => n in seen && seen[n] == token
        case Saving(_, _, guards, _, _, _) => n in guards && guards[n] == token
        case _ => true)
    && forall r :: r in s.commits && r.owner == o ==> n in r.guards && r.guards[n] == token
  }

  lemma {:induction false} CarriesOn(run: seq<System>, actions: seq<Action>, t: nat, u: nat, o: Owner, n: Name, token: Token)
    requires IsRun(run, actions) && t <= u < |run| && Carries(run[t], o, n, token)
    ensures Carries(run[u], o, n, token)
    decreases u
  {
    if t < u {
      CarriesOn(run, actions, t, u - 1, o, n, token);
      assert run[u - 1 + 1] == Next(run[u - 1], actions[u - 1]);
    }
  }

  /** Every lease that a unit finds live, at step t, is held by the same cell at every instant from then until its
      commit, at whatever step p and whichever delivery, goes through. */
  lemma FencesHeldThroughout(run: seq<System>, actions: seq<Action>, t: nat, p: nat, k: nat, o: Owner, n: Name)
    requires IsRun(run, actions) && t < p < |actions| && t <= k <= p
    requires actions[t] == SeeLease(o, n)
    requires actions[p].Deliver? && actions[p].request.owner == o && Succeeds(run[p].etcd, actions[p].request)
    ensures n in run[t].etcd.cells && n in run[k].etcd.cells && run[k].etcd.cells[n] == run[t].etcd.cells[n]
  {
    RunInv(run, actions, t);
    assert run[t + 1] == Next(run[t], actions[t]);
    assert WriterOk(run[t], o);
    var token := run[t + 1].writers[o].seen[n];
    forall r | r in run[t].commits ensures r.owner != o {
      assert CommitOk(run[t], r);
    }
    CarriesOn(run, actions, t + 1, p, o, n, token);
    assert Enabled(run[p], actions[p]);
    HeldSince(run, actions, t, k, p, n);
    HeldSince(run, actions, t, t, p, n);
  }

  /** Every page that the current root reaches is stored, and so is every page that any published root has reached:
      though a unit writes only pages that are neither in its base nor in its cache. */
  lemma PublishedPagesStored(run: seq<System>, actions: seq<Action>, t: nat, i: nat)
    requires IsRun(run, actions) && t < |run|
    ensures run[t].etcd.current.root.pages <= run[t].etcd.stored
    ensures i < |run[t].log| ==> run[t].log[i].after.pages <= run[t].etcd.stored
  {
    RunInv(run, actions, t);
    if i < |run[t].log| {
      assert EntryOk(run[t], run[t].log[i]);
      assert CommitOk(run[t], run[t].log[i].request);
    }
  }

  // ---------------------------------------------------------------- the verdict can be wrong

  const NODE: Key := Key("node", "a")

  /** A root of one record and one page. */
  const GROWN: Root := Root(map[NODE := [7]], {Pages.Leaf([7])})

  function Unlucky(): Commit {
    Commit(1, 1, 0, map[], map[], map[NODE := Some([7])], GROWN, None)
  }

  lemma Extend(run: seq<System>, actions: seq<Action>, a: Action) returns (longer: seq<System>)
    requires IsRun(run, actions) && Enabled(run[|actions|], a)
    ensures longer == run + [Next(run[|actions|], a)] && IsRun(longer, actions + [a])
  {
    longer := run + [Next(run[|actions|], a)];
    var all := actions + [a];
    forall i | 0 <= i < |all| ensures Enabled(longer[i], all[i]) && longer[i + 1] == Next(longer[i], all[i]) {
      if i < |actions| {
        assert run[i + 1] == Next(run[i], actions[i]);
      }
    }
  }

  /** The unit gets the gate and reads the empty root. */
  lemma StoryBegins() returns (run: seq<System>, actions: seq<Action>)
    ensures IsRun(run, actions) && |actions| == 4
    ensures run[4] == System(Etcd(2, Versioned(EMPTY, 0), Held(1, 1), {1}, map[], map[], {}), {Acquire(1, 1)}, {},
      map[1 := Working(1, Versioned(EMPTY, 0), map[], map[])], [], {1}, {}, {})
  {
    run, actions := StoryOpens();
    run := Extend(run, actions, DeliverAcquire(Acquire(1, 1)));
    actions := actions + [DeliverAcquire(Acquire(1, 1))];
    run := Extend(run, actions, ReadRoot(1, map[]));
    actions := actions + [ReadRoot(1, map[])];
  }

  lemma StoryOpens() returns (run: seq<System>, actions: seq<Action>)
    ensures IsRun(run, actions) && |actions| == 2
    ensures run[2] == System(Etcd(1, Versioned(EMPTY, 0), Free, {1}, map[], map[], {}), {Acquire(1, 1)}, {}, map[1 := Waiting(1)], [], {1}, {}, {})
  {
    run := Extend([Init()], [], Grant(1));
    run := Extend(run, [Grant(1)], Begin(1, 1));
    actions := [Grant(1), Begin(1, 1)];
  }

  /** It flushes its change and stores the one new page. */
  lemma StoryFlushes() returns (run: seq<System>, actions: seq<Action>)
    ensures IsRun(run, actions) && |actions| == 6
    ensures run[6] == System(Etcd(2, Versioned(EMPTY, 0), Held(1, 1), {1}, map[], map[], GROWN.pages), {Acquire(1, 1)}, {},
      map[1 := Saving(1, Versioned(EMPTY, 0), map[], map[NODE := Some([7])], GROWN, {})], [], {1}, {}, {})
  {
    run, actions := StoryBegins();
    assert Apply(map[NODE := Some([7])], map[]) == map[NODE := [7]];
    assert NODE !in EMPTY.view;
    var flush := Flush(1, map[NODE := Some([7])], GROWN, {}, GROWN.pages);
    run := Extend(run, actions, flush);
    actions := actions + [flush];
    run := Extend(run, actions, SavePages(1, GROWN.pages));
    actions := actions + [SavePages(1, GROWN.pages)];
  }

  /** It sends its commit, which is applied, but the answer is lost. */
  lemma StoryGoesOn() returns (run: seq<System>, actions: seq<Action>)
    ensures IsRun(run, actions) && |actions| == 8
    ensures run[8].writers == map[1 := Committing(Unlucky())] && run[8].commits == {Unlucky()}
    ensures |run[8].log| == 1 && run[8].log[0].request == Unlucky()
    ensures run[8].etcd.live == {1} && run[8].etcd.current == Versioned(GROWN, 3)
    ensures forall o :: o in run[8].etcd.markers ==> run[8].etcd.markers[o].lease == 1
  {
    run, actions := StoryFlushes();
    assert Puts(Unlucky()) == {};
    run := Extend(run, actions, Send(Unlucky()));
    actions := actions + [Send(Unlucky())];
    run := Extend(run, actions, Deliver(Unlucky(), false));
    actions := actions + [Deliver(Unlucky(), false)];
    Spoiled(run[7], run[8]);
  }

  /** The gate lease runs out; the second delivery is refused, the marker is gone, and the unit reports a conflict
      although its change is the current root. */
  lemma FalseConflict() returns (run: seq<System>, actions: seq<Action>)
    ensures IsRun(run, actions) && |actions| == 11
    ensures 1 in run[11].writers && run[11].writers[1] == Returned(false)
    ensures |run[11].log| == 1 && run[11].log[0].request.owner == 1 && run[11].etcd.current.root == GROWN
  {
    run, actions := StoryGoesOn();
    run := Extend(run, actions, Expire(1));
    actions := actions + [Expire(1)];
    run := Extend(run, actions, Deliver(Unlucky(), true));
    actions := actions + [Deliver(Unlucky(), true)];
    run := Extend(run, actions, CheckMarker(1));
    actions := actions + [CheckMarker(1)];
  }

  lemma Spoiled(s: System, u: System)
    requires s.etcd == Etcd(2, Versioned(EMPTY, 0), Held(1, 1), {1}, map[], map[], GROWN.pages) && s.log == []
    requires Unlucky() in s.commits && u == Delivered(s, Unlucky(), false)
    ensures u.writers == s.writers && u.commits == s.commits && |u.log| == 1 && u.log[0].request == Unlucky()
    ensures u.etcd.live == {1} && u.etcd.current == Versioned(GROWN, 3)
    ensures forall o :: o in u.etcd.markers ==> u.etcd.markers[o].lease == 1
  {
    assert NODE !in EMPTY.view && NODE in GROWN.view;
    assert Unlucky().root != EMPTY;
  }

  // ---------------------------------------------------------------- leases are taken and relied on

  lemma Extended(run: seq<System>, actions: seq<Action>, a: Action, u: System) returns (longer: seq<System>, all: seq<Action>)
    requires IsRun(run, actions) && Enabled(run[|actions|], a) && u == Next(run[|actions|], a)
    ensures IsRun(longer, all) && longer == run + [u] && all == actions + [a]
  {
    longer := Extend(run, actions, a);
    all := actions + [a];
  }

  /** A new unit gets the free gate and reads the root. */
  lemma GetsToWork(run: seq<System>, actions: seq<Action>, o: Owner, l: Lease) returns (longer: seq<System>, all: seq<Action>)
    requires IsRun(run, actions)
    requires var s := run[|actions|]; s.etcd.gate.Free? && l in s.etcd.live && l in s.granted && o !in s.writers
    ensures IsRun(longer, all) && run <= longer && actions <= all && |actions| < |all|
    ensures var s := run[|actions|];
      longer[|all|] == s.(etcd := s.etcd.(gate := Held(o, l), revision := s.etcd.revision + 1), acquires := s.acquires + {Acquire(o, l)},
                          writers := s.writers[o := Working(l, s.etcd.current, map[], map[])])
  {
    var s := run[|actions|];
    var s1 := s.(writers := s.writers[o := Waiting(l)], acquires := s.acquires + {Acquire(o, l)});
    longer, all := Extended(run, actions, Begin(o, l), s1);
    var s2 := s1.(etcd := s.etcd.(gate := Held(o, l), revision := s.etcd.revision + 1));
    longer, all := Extended(longer, all, DeliverAcquire(Acquire(o, l)), s2);
    assert s2.writers[o := Working(l, s.etcd.current, map[], map[])] == s.writers[o := Working(l, s.etcd.current, map[], map[])];
    longer, all := Extended(longer, all, ReadRoot(o, map[]), Next(s2, ReadRoot(o, map[])));
  }

  /** It flushes its changes and stores its pages. */
  lemma FlushesAll(run: seq<System>, actions: seq<Action>, o: Owner, l: Lease, base: Versioned, seen: map<Name, Token>, changes: Changes, root: Root)
    returns (longer: seq<System>, all: seq<Action>)
    requires IsRun(run, actions) && Flushed(base.root, changes, root, {}, root.pages)
    requires var s := run[|actions|]; o in s.writers && s.writers[o] == Working(l, base, map[], seen)
    ensures IsRun(longer, all) && run <= longer && actions <= all
    ensures var s := run[|actions|];
      longer[|all|] == s.(etcd := s.etcd.(stored := s.etcd.stored + root.pages),
                          writers := s.writers[o := Saving(l, base, seen, changes, root, {})])
  {
    var s := run[|actions|];
    assert map[] + seen == seen;
    var s1 := s.(writers := s.writers[o := Saving(l, base, seen, changes, root, root.pages)]);
    longer, all := Extended(run, actions, Flush(o, changes, root, {}, root.pages), s1);
    assert root.pages - root.pages == {};
    var s2 := s.(etcd := s.etcd.(stored := s.etcd.stored + root.pages), writers := s.writers[o := Saving(l, base, seen, changes, root, {})]);
    longer, all := Extended(longer, all, SavePages(o, root.pages), s2);
  }

  /** It sends its commit, which goes through. */
  lemma SendsAndLands(run: seq<System>, actions: seq<Action>, r: Commit) returns (longer: seq<System>, all: seq<Action>)
    requires IsRun(run, actions)
    requires Sendable(run[|actions|], r) && Succeeds(run[|actions|].etcd, r)
    ensures IsRun(longer, all) && run <= longer && |all| == |actions| + 2 && actions <= all && all[|actions| + 1] == Deliver(r, true)
    ensures longer[|actions| + 1].etcd == run[|actions|].etcd
    ensures var s, u := run[|actions|], longer[|all|];
      && u.etcd == Applied(s.etcd, r) && u.log == s.log + [Entry(r, s.etcd.current.root, r.root)]
      && u.granted == s.granted && u.used == s.used + Puts(r) && u.writers.Keys == s.writers.Keys
  {
    longer, all := Extended(run, actions, Send(r), Next(run[|actions|], Send(r)));
    longer, all := Extended(longer, all, Deliver(r, true), Next(longer[|all|], Deliver(r, true)));
  }

  function Locking(k: Name): Commit {
    Commit(1, 1, 0, map[], map[k := Some(Cell(7, 2))], map[NODE := Some([7])], GROWN, None)
  }

  function Relying(k: Name, mod: nat): Commit {
    Commit(2, 1, mod, map[k := 7], map[], map[NODE := None], SHRUNK, None)
  }

  /** A root of no record: its one page says so. */
  const SHRUNK: Root := Root(map[], {Pages.Leaf([])})

  lemma TwoLeases() returns (run: seq<System>, actions: seq<Action>)
    ensures IsRun(run, actions)
    ensures run[|actions|] == System(Etcd(1, Versioned(EMPTY, 0), Free, {1, 2}, map[], map[], {}), {}, {}, map[], [], {1, 2}, {}, {})
  {
    run, actions := Extended([Init()], [], Grant(1), Next(Init(), Grant(1)));
    run, actions := Extended(run, actions, Grant(2), Next(run[1], Grant(2)));
  }

  lemma ReadyToLock() returns (run: seq<System>, actions: seq<Action>)
    ensures IsRun(run, actions)
    ensures run[|actions|] == System(Etcd(2, Versioned(EMPTY, 0), Held(1, 1), {1, 2}, map[], map[], GROWN.pages), {Acquire(1, 1)}, {},
      map[1 := Saving(1, Versioned(EMPTY, 0), map[], map[NODE := Some([7])], GROWN, {})], [], {1, 2}, {}, {})
  {
    run, actions := TwoLeases();
    run, actions := GetsToWork(run, actions, 1, 1);
    assert Apply(map[NODE := Some([7])], map[]) == map[NODE := [7]] && NODE !in EMPTY.view && NODE in GROWN.view;
    run, actions := FlushesAll(run, actions, 1, 1, Versioned(EMPTY, 0), map[], map[NODE := Some([7])], GROWN);
  }

  /** Unit 1 puts lease key k, under a lease of its own. */
  lemma TakesLease(k: Name) returns (run: seq<System>, actions: seq<Action>)
    ensures IsRun(run, actions)
    ensures var u := run[|actions|];
      && u.etcd.gate.Free? && u.etcd.live == {1, 2} && u.granted == {1, 2} && u.writers.Keys == {1} && u.used == {7}
      && u.etcd.cells == map[k := Cell(7, 2)] && u.etcd.current.root == GROWN
      && |u.log| == 1 && u.log[0].request == Locking(k)
  {
    run, actions := ReadyToLock();
    PutsOne(k);
    assert NODE !in EMPTY.view && NODE in GROWN.view;
    run, actions := SendsAndLands(run, actions, Locking(k));
  }

  lemma PutsOne(k: Name)
    ensures Puts(Locking(k)) == {7}
  {
    var r := Locking(k);
    assert k in r.effects && r.effects[k].value.token == 7;
  }

  lemma ReadyToRely(k: Name) returns (run: seq<System>, actions: seq<Action>, t: nat)
    ensures IsRun(run, actions) && t < |actions|
    ensures actions[t] == SeeLease(2, k) && k in run[t].etcd.cells && run[t].etcd.cells[k] == Cell(7, 2)
    ensures var u := run[|actions|];
      && u.etcd.gate == Held(2, 1) && u.etcd.live == {1, 2} && u.used == {7} && u.etcd.cells == map[k := Cell(7, 2)]
      && u.etcd.current.root == GROWN && |u.log| == 1
      && 2 in u.writers && u.writers[2] == Saving(1, u.etcd.current, map[k := 7], map[NODE := None], SHRUNK, {})
  {
    run, actions := TakesLease(k);
    run, actions := GetsToWork(run, actions, 2, 1);
    t := |actions|;
    var s := run[t];
    var base := s.etcd.current;
    run, actions := Extended(run, actions, SeeLease(2, k), s.(writers := s.writers[2 := Working(1, base, map[], map[k := 7])]));
    assert Apply(map[NODE := None], GROWN.view) == map[];
    assert NODE !in SHRUNK.view && NODE in GROWN.view;
    run, actions := FlushesAll(run, actions, 2, 1, base, map[k := 7], map[NODE := None], SHRUNK);
  }

  /** Then unit 2 finds it held, relies on it, and is published: lease keys that commits put are there for others. */
  lemma LeaseIsRelied(k: Name) returns (run: seq<System>, actions: seq<Action>, t: nat, p: nat)
    ensures IsRun(run, actions) && t < p < |actions|
    ensures actions[t] == SeeLease(2, k) && k in run[t].etcd.cells && run[t].etcd.cells[k] == Cell(7, 2)
    ensures actions[p].Deliver? && actions[p].request.owner == 2 && k in actions[p].request.guards && Succeeds(run[p].etcd, actions[p].request)
    ensures |run[|actions|].log| == 2 && run[|actions|].etcd.current.root == SHRUNK
  {
    run, actions, t := ReadyToRely(k);
    var r := Relying(k, run[|actions|].etcd.current.mod);
    NothingPut(r);
    p := |actions| + 1;
    run, actions := SendsAndLands(run, actions, r);
  }

  lemma NothingPut(r: Commit)
    requires r.effects == map[]
    ensures Puts(r) == {}
  {
  }
}
