/** Maintenance leadership: an elected owner installs a generation, and publishes under lease guards. */
module Leadership {
  import opened Bytes

  type Lease = nat

  /** The value of a lease key. That of the leader key is an instance and a fresh identifier, so no two elections
      use the same one. */
  type Value = nat

  /** Lease keys, and units of work. */
  type Name = nat
  type Task = nat

  const LEADER: Name := 0

  datatype Cell = Cell(value: Value, lease: Lease)

  datatype Election = Election(value: Value, lease: Lease)

  /** The published maintenance record: lease_owner is owner, lease_key is LEADER. */
  datatype Record = Record(generation: nat, owner: Value)

  datatype Purpose = Installing | Maintaining

  /** A unit in flight: runner opened it; mod and record are those of the root that it read; seen are the lease keys
      it has read, guards the compares of its commit. */
  datatype InFlight = InFlight(runner: Value, purpose: Purpose, mod: nat, record: Option<Record>,
                               seen: map<Name, Option<Value>>, guards: map<Name, Value>)

  /** One publication of a maintenance unit: who ran it, and the record that its tasks bear. */
  datatype Work = Work(runner: Value, bears: Option<Record>)

  /** cells are the lease keys; elected the values that the leader key has had; mod and record belong to the root;
      installed lists the owners of generations, work what maintenance units have published. */
  datatype State = State(cells: map<Name, Cell>, live: set<Lease>, granted: set<Lease>, sent: set<Election>, elected: set<Value>,
                         mod: nat, record: Option<Record>, flight: map<Task, InFlight>, installed: seq<Value>, work: seq<Work>)

  function Init(): State {
    State(map[], {}, {}, {}, {}, 0, None, map[], [], [])
  }

  datatype Action =
    | Stand(election: Election)
    | DeliverElection(election: Election)
    | Expire(lease: Lease)
    | Other(name: Name, cell: Option<Cell>)
    | Begin(task: Task, runner: Value, purpose: Purpose)
    | Consult(task: Task)
    | Look(task: Task, name: Name, owner: Value)
    | Commit(task: Task)
    | Elsewhere

  // ---------------------------------------------------------------- guards

  function ValueOf(s: State, n: Name): Option<Value> {
    if n in s.cells then Some(s.cells[n].value) else None
  }

  /** lease_live: a key is read once; if it is held for this owner, that value becomes the guard on the key, whatever
      guard the key had before. */
  function Looked(s: State, u: InFlight, n: Name, owner: Value): InFlight {
    var seen := if n in u.seen then u.seen else u.seen[n := ValueOf(s, n)];
    u.(seen := seen, guards := if seen[n] == Some(owner) then u.guards[n := owner] else u.guards)
  }

  predicate Consulted(u: InFlight) {
    LEADER in u.seen
  }

  predicate Holds(s: State, u: InFlight, n: Name)
    requires n in u.guards
  {
    ValueOf(s, n) == Some(u.guards[n])
  }

  /** The commit goes through: the root is the one that was read, and every guard holds. */
  predicate GetsThrough(s: State, u: InFlight) {
    u.mod == s.mod && forall n {:trigger Holds(s, u, n)} :: n in u.guards ==> Holds(s, u, n)
  }

  // ---------------------------------------------------------------- steps

  predicate Enabled(s: State, a: Action) {
    match a
    case Stand(e) => e.lease !in s.granted && forall q :: q in s.sent ==> q.value != e.value
    case DeliverElection(e) => e in s.sent
    case Expire(l) => l in s.live
    case Other(n, cell) => n != LEADER && (cell.Some? ==> cell.value.lease in s.live)
    case Begin(k, v, _) => k !in s.flight && v in s.elected
    case Consult(k) => k in s.flight && s.flight[k].purpose.Maintaining?
    case Look(k, n, _) => k in s.flight && n != LEADER
    case Commit(k) => k in s.flight
    case Elsewhere => true
  }

  /** The guards that a unit starts with are the runner's required ones. A unit that consults the record and does not
      find its owner leading is given up, and so is one whose commit is refused. */
  function Next(s: State, a: Action): State
    requires Enabled(s, a)
  {
    match a
    case Stand(e) => s.(live := s.live + {e.lease}, granted := s.granted + {e.lease}, sent := s.sent + {e})
    case DeliverElection(e) =>
      if LEADER !in s.cells && e.lease in s.live
      then s.(cells := s.cells[LEADER := Cell(e.value, e.lease)], elected := s.elected + {e.value}) else s
    case Expire(l) => s.(live := s.live - {l}, cells := map n | n in s.cells && s.cells[n].lease != l :: s.cells[n])
    case Other(n, cell) => s.(cells := if cell.Some? then s.cells[n := cell.value] else s.cells - {n})
    case Begin(k, v, p) => s.(flight := s.flight[k := InFlight(v, p, s.mod, s.record, map[], map[LEADER := v])])
    case Consult(k) => AfterConsult(s, k)
    case Look(k, n, owner) => s.(flight := s.flight[k := Looked(s, s.flight[k], n, owner)])
    case Commit(k) =>
      var t := s.(flight := s.flight - {k});
      if GetsThrough(s, s.flight[k]) then Published(t, s.flight[k]) else t
    case Elsewhere => s.(mod := s.mod + 1)
  }

  /** maintenance(tx). */
  function AfterConsult(s: State, k: Task): State
    requires k in s.flight
  {
    var u := s.flight[k];
    if u.record == None then s.(flight := s.flight - {k})
    else
      var v := Looked(s, u, LEADER, u.record.value.owner);
      s.(flight := if v.seen[LEADER] == Some(u.record.value.owner) then s.flight[k := v] else s.flight - {k})
  }

  /** An install leaves its own generation alone; tasks bear the record that their unit consulted. */
  function Published(s: State, u: InFlight): State {
    match u.purpose
    case Installing =>
      if u.record.Some? && u.record.value.owner == u.runner then s
      else s.(mod := s.mod + 1, installed := s.installed + [u.runner],
              record := Some(Record(if u.record.Some? then u.record.value.generation + 1 else 1, u.runner)))
    case Maintaining =>
      s.(mod := s.mod + 1, work := s.work + [Work(u.runner, if Consulted(u) then u.record else None)])
  }

  // ---------------------------------------------------------------- the invariant

  ghost predicate LeaderIs(s: State, e: Election) {
    LEADER in s.cells && s.cells[LEADER] == Cell(e.value, e.lease)
  }

  /** Every election stood for has its own lease and its own value. */
  ghost predicate ElectionsOk(s: State) {
    && s.live <= s.granted
    && (forall e :: e in s.sent ==> e.lease in s.granted)
    && (forall e, f :: e in s.sent && f in s.sent && (e.lease == f.lease || e.value == f.value) ==> e == f)
    && (LEADER in s.cells ==> Election(s.cells[LEADER].value, s.cells[LEADER].lease) in s.sent && s.cells[LEADER].lease in s.live)
  }

  /** An owner that has published a generation has lost its lease, unless it is the last and still leads. */
  ghost predicate Settled(s: State, e: Election) {
    e.value in s.installed && e.lease in s.live ==> s.installed[|s.installed| - 1] == e.value && LeaderIs(s, e)
  }

  ghost predicate Distinct(values: seq<Value>) {
    forall i, j {:trigger values[i], values[j]} :: 0 <= i < j < |values| ==> values[i] != values[j]
  }

  ghost predicate Stood(s: State, v: Value) {
    exists e :: e in s.sent && e.value == v
  }

  /** The guard on the leader key: that of the record's owner once the unit has consulted it, its runner's before. */
  ghost predicate FlightOk(s: State, u: InFlight) {
    && u.mod <= s.mod && (u.mod == s.mod ==> u.record == s.record)
    && LEADER in u.guards
    && if Consulted(u)
       then u.purpose.Maintaining? && u.record.Some? && u.seen[LEADER] == Some(u.record.value.owner) && u.guards[LEADER] == u.record.value.owner
       else u.guards[LEADER] == u.runner
  }

  ghost predicate BornBy(s: State, w: Work) {
    w.bears.Some? ==> 0 < w.bears.value.generation <= |s.installed| && s.installed[w.bears.value.generation - 1] == w.bears.value.owner
  }

  ghost predicate RecordOk(s: State) {
    && (s.record.Some? <==> s.installed != [])
    && (s.record.Some? ==> s.record.value == Record(|s.installed|, s.installed[|s.installed| - 1]))
  }

  ghost predicate Inv(s: State) {
    && ElectionsOk(s) && RecordOk(s) && Distinct(s.installed)
    && (forall e {:trigger Settled(s, e)} :: e in s.sent ==> Settled(s, e))
    && (forall v {:trigger Stood(s, v)} :: v in s.installed ==> Stood(s, v))
    && (forall k {:trigger s.flight[k]} :: k in s.flight ==> FlightOk(s, s.flight[k]))
    && (forall w {:trigger BornBy(s, w)} :: w in s.work ==> BornBy(s, w))
  }

  lemma InstallKeeps(s: State, k: Task)
    requires Inv(s) && k in s.flight && s.flight[k].purpose.Installing? && GetsThrough(s, s.flight[k])
    ensures Inv(Next(s, Commit(k)))
  {
    var u, v := Next(s, Commit(k)), s.flight[k].runner;
    assert FlightOk(s, s.flight[k]) && Holds(s, s.flight[k], LEADER);
    if u.mod != s.mod {
      var e := Election(v, s.cells[LEADER].lease);
      assert Settled(s, e);
      assert v !in s.installed;
      assert Stood(u, v);
      forall q | q in u.sent ensures Settled(u, q) {
        assert Settled(s, q);
      }
      forall x | x in u.installed ensures Stood(u, x) {
        if x != v {
          assert Stood(s, x);
        }
      }
      forall w | w in u.work ensures BornBy(u, w) {
        assert BornBy(s, w);
      }
    } else {
      Unchanged(s, u);
    }
  }

  /** Steps that install nothing. */
  lemma Unchanged(s: State, u: State)
    requires Inv(s) && ElectionsOk(u) && u.installed == s.installed && u.record == s.record && s.sent <= u.sent && s.mod <= u.mod
    requires u.live - s.live <= u.granted - s.granted
    requires forall e :: e in s.sent && e.lease in u.live && LeaderIs(s, e) ==> LeaderIs(u, e)
    requires forall e :: e in u.sent && e !in s.sent ==> !Stood(s, e.value)
    requires forall k :: k in u.flight ==> FlightOk(u, u.flight[k])
    requires forall w :: w in u.work ==> w in s.work || BornBy(u, w)
    ensures Inv(u)
  {
    forall q | q in u.sent ensures Settled(u, q) {
      if q in s.sent {
        assert Settled(s, q);
      } else {
        assert q.value in s.installed ==> Stood(s, q.value);
      }
    }
    forall v | v in u.installed ensures Stood(u, v) {
      assert Stood(s, v);
    }
    forall w | w in u.work ensures BornBy(u, w) {
      assert w in s.work ==> BornBy(s, w);
    }
  }

  lemma StepKeeps(s: State, a: Action)
    requires Inv(s) && Enabled(s, a)
    ensures Inv(Next(s, a))
  {
    if a.Commit? && s.flight[a.task].purpose.Installing? && GetsThrough(s, s.flight[a.task]) {
      InstallKeeps(s, a.task);
    } else {
      var u := Next(s, a);
      FlightKeeps(s, a);
      if a.Commit? {
        assert FlightOk(s, s.flight[a.task]);
      }
      Unchanged(s, u);
    }
  }

  lemma FlightKeeps(s: State, a: Action)
    requires Inv(s) && Enabled(s, a)
    requires !(a.Commit? && s.flight[a.task].purpose.Installing? && GetsThrough(s, s.flight[a.task]))
    ensures forall k :: k in Next(s, a).flight ==> FlightOk(Next(s, a), Next(s, a).flight[k])
  {
    var u := Next(s, a);
    forall k | k in u.flight ensures FlightOk(u, u.flight[k]) {
      assert k in s.flight ==> FlightOk(s, s.flight[k]);
    }
  }

  // ---------------------------------------------------------------- over every run

  ghost predicate IsRun(run: seq<State>, actions: seq<Action>) {
    && |run| == |actions| + 1 && run[0] == Init()
    && forall i {:trigger run[i + 1]} {:trigger actions[i]} :: 0 <= i < |actions| ==> Enabled(run[i], actions[i]) && run[i + 1] == Next(run[i], actions[i])
  }

  lemma {:induction false} RunInv(run: seq<State>, actions: seq<Action>, t: nat)
    requires IsRun(run, actions) && t < |run|
    ensures Inv(run[t])
  {
    if t > 0 {
      RunInv(run, actions, t - 1);
      assert run[t - 1 + 1] == Next(run[t - 1], actions[t - 1]);
      StepKeeps(run[t - 1], actions[t - 1]);
    }
  }

  /** History only grows. */
  lemma {:induction false} RunGrows(run: seq<State>, actions: seq<Action>, t: nat, u: nat)
    requires IsRun(run, actions) && t <= u < |run|
    ensures run[t].installed <= run[u].installed && run[t].work <= run[u].work
    ensures run[t].granted <= run[u].granted && run[t].sent <= run[u].sent
    decreases u
  {
    if t < u {
      RunGrows(run, actions, t, u - 1);
      assert run[u - 1 + 1] == Next(run[u - 1], actions[u - 1]);
    }
  }

  /** Generations rise by one with each new owner, each belongs to exactly one owner value, and no owner gets two:
      the records of any two instants agree on the owner exactly if they agree on the generation. */
  lemma GenerationsIdentifyOwners(run: seq<State>, actions: seq<Action>, t: nat, u: nat)
    requires IsRun(run, actions) && t <= u < |run| && run[t].record.Some?
    ensures run[u].record.Some? && run[t].record.value.generation <= run[u].record.value.generation
    ensures run[t].record.value.generation == run[u].record.value.generation <==> run[t].record.value.owner == run[u].record.value.owner
    ensures u == t + 1 ==> run[u].record.value.generation <= run[t].record.value.generation + 1
  {
    RunInv(run, actions, t);
    RunInv(run, actions, u);
    RunGrows(run, actions, t, u);
    var m, n := |run[t].installed|, |run[u].installed|;
    assert run[t].installed[m - 1] == run[u].installed[m - 1];
    if u == t + 1 {
      assert run[t + 1] == Next(run[t], actions[t]);
    }
  }

  /** The records that tasks bear agree on the owner exactly if they agree on the generation. */
  lemma TasksBearOneGeneration(run: seq<State>, actions: seq<Action>, t: nat, i: nat, j: nat)
    requires IsRun(run, actions) && t < |run| && i < |run[t].work| && j < |run[t].work|
    requires run[t].work[i].bears.Some? && run[t].work[j].bears.Some?
    ensures var a, b := run[t].work[i].bears.value, run[t].work[j].bears.value; a.owner == b.owner <==> a.generation == b.generation
  {
    RunInv(run, actions, t);
    assert BornBy(run[t], run[t].work[i]) && BornBy(run[t], run[t].work[j]);
  }

  // ---------------------------------------------------------------- who gets through

  /** The guards besides that on the leader key. */
  predicate OthersHold(s: State, u: InFlight) {
    forall n {:trigger Holds(s, u, n)} :: n in u.guards && n != LEADER ==> Holds(s, u, n)
  }

  /** The one value of the leader key under which a unit is published: consulting the record overwrites the guard
      that its runner required, so it is the record's owner for a unit that has consulted it, and the runner for one
      that has not. */
  lemma GetsThroughExactly(run: seq<State>, actions: seq<Action>, t: nat, k: Task)
    requires IsRun(run, actions) && t < |run| && k in run[t].flight
    ensures var s, u := run[t], run[t].flight[k];
      && (Consulted(u) ==> u.record.Some?)
      && (GetsThrough(s, u) <==>
           u.mod == s.mod && OthersHold(s, u) && ValueOf(s, LEADER) == Some(if Consulted(u) then u.record.value.owner else u.runner))
      && (GetsThrough(s, u) ==> u.record == s.record)
  {
    RunInv(run, actions, t);
    var s, u := run[t], run[t].flight[k];
    assert FlightOk(s, u);
    assert Holds(s, u, LEADER) <==> ValueOf(s, LEADER) == Some(u.guards[LEADER]);
  }

  /** The lease of an owner, once it has run out, never is live again. */
  lemma {:induction false} LeasesStayDead(run: seq<State>, actions: seq<Action>, t: nat, u: nat, l: Lease)
    requires IsRun(run, actions) && t <= u < |run| && l in run[t].granted && l !in run[t].live
    ensures l !in run[u].live
    decreases u
  {
    if t < u {
      LeasesStayDead(run, actions, t, u - 1, l);
      RunGrows(run, actions, t, u - 1);
      assert run[u - 1 + 1] == Next(run[u - 1], actions[u - 1]);
    }
  }

  /** So the leader key never has a deposed owner's value again. */
  lemma DeposedLeadsNoMore(run: seq<State>, actions: seq<Action>, t: nat, u: nat, e: Election)
    requires IsRun(run, actions) && t <= u < |run| && e in run[t].sent && e.lease !in run[t].live
    ensures ValueOf(run[u], LEADER) != Some(e.value)
  {
    RunInv(run, actions, t);
    RunInv(run, actions, u);
    LeasesStayDead(run, actions, t, u, e.lease);
    RunGrows(run, actions, t, u);
  }

  /** What a deposed owner still publishes, from the instant its lease has run out and however late its requests
      arrive: exactly those units of its tick that have consulted the record of the owner that leads now. No
      generation, and no unit that did not consult the record or whose record names itself, is among them. */
  lemma DeposedPublishesExactly(run: seq<State>, actions: seq<Action>, t: nat, u: nat, e: Election, k: Task)
    requires IsRun(run, actions) && t <= u < |run| && e in run[t].sent && e.lease !in run[t].live
    requires k in run[u].flight && run[u].flight[k].runner == e.value
    ensures var s, unit := run[u], run[u].flight[k];
      && (GetsThrough(s, unit) <==>
           unit.mod == s.mod && OthersHold(s, unit) && Consulted(unit) && s.record.Some? && ValueOf(s, LEADER) == Some(s.record.value.owner))
      && (GetsThrough(s, unit) ==>
           unit.purpose.Maintaining? && s.record.value.owner != e.value
           && Next(s, Commit(k)).work == s.work + [Work(e.value, s.record)] && Next(s, Commit(k)).installed == s.installed)
  {
    RunInv(run, actions, u);
    GetsThroughExactly(run, actions, u, k);
    DeposedLeadsNoMore(run, actions, t, u, e);
    assert FlightOk(run[u], run[u].flight[k]);
  }

  /** In particular every generation is installed by the owner that leads at that very instant. */
  lemma InstallsLead(run: seq<State>, actions: seq<Action>, t: nat)
    requires IsRun(run, actions) && t + 1 < |run| && run[t + 1].installed != run[t].installed
    ensures var v := run[t + 1].installed[|run[t].installed|];
      run[t + 1].installed == run[t].installed + [v] && ValueOf(run[t], LEADER) == Some(v) && run[t + 1].record.value.owner == v
  {
    assert run[t + 1] == Next(run[t], actions[t]);
    GetsThroughExactly(run, actions, t, actions[t].task);
    RunInv(run, actions, t);
    assert FlightOk(run[t], run[t].flight[actions[t].task]);
  }

  // ---------------------------------------------------------------- a deposed owner's unit gets through

  lemma Extend(run: seq<State>, actions: seq<Action>, a: Action, u: State) returns (longer: seq<State>, all: seq<Action>)
    requires IsRun(run, actions) && Enabled(run[|actions|], a) && u == Next(run[|actions|], a)
    ensures longer == run + [u] && all == actions + [a] && IsRun(longer, all)
  {
    longer, all := run + [u], actions + [a];
    forall i | 0 <= i < |all| ensures Enabled(longer[i], all[i]) && longer[i + 1] == Next(longer[i], all[i]) {
      if i < |actions| {
        assert run[i + 1] == Next(run[i], actions[i]);
      }
    }
  }

  /** v is elected under lease l, and installs its generation. */
  lemma TakesOver(run: seq<State>, actions: seq<Action>, v: Value, g: nat, was: Option<Record>) returns (longer: seq<State>, all: seq<Action>)
    requires IsRun(run, actions)
    requires var s := run[|actions|];
      && s.cells == map[] && s.live == {} && v !in s.granted && (forall q :: q in s.sent ==> q.value != v) && s.flight == map[]
      && s.record == was && (was.Some? ==> was.value.owner != v) && g == (if was.Some? then was.value.generation + 1 else 1)
    ensures IsRun(longer, all) && run <= longer && actions <= all
    ensures var s, u := run[|actions|], longer[|all|];
      u == State(map[LEADER := Cell(v, v)], {v}, s.granted + {v}, s.sent + {Election(v, v)}, s.elected + {v},
                 s.mod + 1, Some(Record(g, v)), map[], s.installed + [v], s.work)
  {
    var s := run[|actions|];
    var e := Election(v, v);
    var s1 := Next(s, Stand(e));
    longer, all := Extend(run, actions, Stand(e), s1);
    var s2 := s1.(cells := map[LEADER := Cell(v, v)], elected := s.elected + {v});
    longer, all := Extend(longer, all, DeliverElection(e), s2);
    var unit := InFlight(v, Installing, s.mod, was, map[], map[LEADER := v]);
    var s3 := s2.(flight := map[0 := unit]);
    longer, all := Extend(longer, all, Begin(0, v, Installing), s3);
    assert Holds(s3, unit, LEADER);
    assert s3.flight - {0} == map[];
    longer, all := Extend(longer, all, Commit(0), Next(s3, Commit(0)));
  }

  /** Owner 1 leads, stalls and loses its lease; owner 2 is elected and installs its generation; owner 1 goes on with
      its tick: a unit that consults the record takes over owner 2's guard, and is published. */
  lemma DeposedPublishes() returns (run: seq<State>, actions: seq<Action>, t: nat)
    ensures IsRun(run, actions) && t < |actions|
    ensures Election(1, 1) in run[t].sent && 1 in run[t].granted && 1 !in run[t].live && run[t].work == []
    ensures run[|actions|].work == [Work(1, Some(Record(2, 2)))]
  {
    run, actions := TakesOver([Init()], [], 1, 1, None);
    var s := run[|actions|];
    var s1 := s.(live := {}, cells := map[]);
    run, actions := Extend(run, actions, Expire(1), s1);
    t := |actions|;
    run, actions := TakesOver(run, actions, 2, 2, Some(Record(1, 1)));
    run, actions := GoesOn(run, actions, 1, 2, Record(2, 2));
  }

  /** v, which does not lead, runs a unit that consults the record of w, which does. */
  lemma GoesOn(run: seq<State>, actions: seq<Action>, v: Value, w: Value, r: Record) returns (longer: seq<State>, all: seq<Action>)
    requires IsRun(run, actions)
    requires var s := run[|actions|];
      && s.flight == map[] && v in s.elected && s.record == Some(r) && r.owner == w && s.cells == map[LEADER := Cell(w, w)]
    ensures IsRun(longer, all) && run <= longer && actions <= all
    ensures longer[|all|].work == run[|actions|].work + [Work(v, Some(r))]
  {
    var s := run[|actions|];
    var unit := InFlight(v, Maintaining, s.mod, Some(r), map[], map[LEADER := v]);
    var s1 := s.(flight := map[0 := unit]);
    longer, all := Extend(run, actions, Begin(0, v, Maintaining), s1);
    var consulted := unit.(seen := map[LEADER := Some(w)], guards := map[LEADER := w]);
    var s2 := s1.(flight := map[0 := consulted]);
    assert Looked(s1, unit, LEADER, w) == consulted;
    longer, all := Extend(longer, all, Consult(0), s2);
    assert Holds(s2, consulted, LEADER);
    longer, all := Extend(longer, all, Commit(0), Next(s2, Commit(0)));
  }
}
