/** Idempotent commands: a request is executed at most once, in the transaction that remembers its answer, and is
    answered the same way however often it is retried; a request that fails is not remembered and leaves no trace. */
module Ledger {
  import opened Bytes

  /** Who asks, and under which request identifier. */
  type Id = nat

  /** intent is the digest of the method and its arguments. */
  datatype Entry<Q, R> = Entry(intent: Q, response: R)

  datatype Reply<R> = Answer(response: R) | Mismatch | Refused | NoReply

  /** What one attempt runs into: the publication is lost, it happens but its reply is lost, or all goes well. */
  datatype Luck = Unpublished | Unanswered | Good

  /** One executed command, as history sees it. */
  datatype Done<Q> = Done(id: Id, intent: Q)

  datatype Attempt<Q> = Attempt(id: Id, intent: Q, luck: Luck)

  /** The tables after executing these commands once each, if none of them refuses. */
  function Execute<S, Q, R>(run: (S, Q) -> Option<(S, R)>, tables: S, done: seq<Done<Q>>): Option<S> {
    if done == [] then Some(tables)
    else
      var before := Execute(run, tables, done[..|done| - 1]);
      if before == None then None
      else
        var after := run(before.value, done[|done| - 1].intent);
        if after == None then None else Some(after.value.0)
  }

  /** An answer is what the ledger remembers for the request. */
  predicate Told<Q(==), R(==)>(ledger: map<Id, Entry<Q, R>>, a: Attempt<Q>, reply: Reply<R>) {
    reply.Answer? ==> a.id in ledger && ledger[a.id] == Entry(a.intent, reply.response)
  }

  /** The tables and the ledger at one instant. */
  datatype View<S, Q, R> = View(tables: S, ledger: map<Id, Entry<Q, R>>)

  /** One attempt: a known request is answered and changes nothing, and one of another intent is told so; a new one that
      is refused or not published leaves no trace; any other takes effect, is remembered, and is answered unless the
      reply is lost. */
  predicate Attempted<S(==), Q(==), R(==)>(run: (S, Q) -> Option<(S, R)>, before: View<S, Q, R>, after: View<S, Q, R>, a: Attempt<Q>, reply: Reply<R>) {
    if a.id in before.ledger then
      after == before && reply == if before.ledger[a.id].intent == a.intent then Answer(before.ledger[a.id].response) else Mismatch
    else match run(before.tables, a.intent)
      case None => after == before && reply == Refused
      case Some(outcome) =>
        if a.luck == Unpublished then after == before && reply == NoReply
        else
          && after == View(outcome.0, before.ledger[a.id := Entry(a.intent, outcome.1)])
          && reply == if a.luck == Good then Answer(outcome.1) else NoReply
  }

  lemma StillTold<Q, R>(before: map<Id, Entry<Q, R>>, after: map<Id, Entry<Q, R>>, a: Attempt<Q>, reply: Reply<R>)
    requires Told(before, a, reply) && forall k :: k in before ==> k in after && after[k] == before[k]
    ensures Told(after, a, reply)
  {
  }

  class Control<S(==), Q(==), R(==)> {
    /** A command's effect on the tables and its response, or None if it raises a fault. */
    const run: (S, Q) -> Option<(S, R)>
    ghost const start: S
    var tables: S
    var ledger: map<Id, Entry<Q, R>>
    ghost var done: seq<Done<Q>>

    /** The tables are what executing each remembered request once gives. */
    ghost predicate Valid()
      reads this
    {
      && Execute(run, start, done) == Some(tables)
      && (forall i, j :: 0 <= i < j < |done| ==> done[i].id != done[j].id)
      && (forall i :: 0 <= i < |done| ==> done[i].id in ledger && ledger[done[i].id].intent == done[i].intent)
      && (forall i :: i in ledger ==> exists k :: 0 <= k < |done| && done[k].id == i)
    }

    constructor (run: (S, Q) -> Option<(S, R)>, tables: S)
      ensures Valid() && this.run == run && this.tables == tables && ledger == map[] && start == tables
    {
      this.run, this.tables, start := run, tables, tables;
      ledger, done := map[], [];
    }

    /** replay: the remembered response, if the request is the same one. */
    method Replay(i: Id, intent: Q) returns (r: Option<Reply<R>>)
      ensures r == None <==> i !in ledger
      ensures i in ledger ==> r == Some(if ledger[i].intent == intent then Answer(ledger[i].response) else Mismatch)
    {
      if i !in ledger {
        return None;
      }
      return Some(if ledger[i].intent == intent then Answer(ledger[i].response) else Mismatch);
    }

    /** remember: the command's effect and its response are published together. */
    method Remember(i: Id, intent: Q, after: S, response: R)
      requires Valid() && i !in ledger && run(tables, intent) == Some((after, response))
      modifies this
      ensures Valid()
      ensures tables == after && ledger == old(ledger)[i := Entry(intent, response)] && done == old(done) + [Done(i, intent)]
    {
      ghost var was := done;
      tables, ledger, done := after, ledger[i := Entry(intent, response)], done + [Done(i, intent)];
      assert done[..|done| - 1] == was;
      forall k | k in ledger ensures exists x :: 0 <= x < |done| && done[x].id == k {
        if k == i {
          assert done[|was|].id == k;
        } else {
          var x :| 0 <= x < |was| && was[x].id == k;
          assert done[x].id == k;
        }
      }
    }

    /** unary_once: a request that the ledger knows is answered from it and changes nothing; any other is executed and
        remembered in one publication, or leaves no trace. */
    method UnaryOnce(i: Id, intent: Q, luck: Luck) returns (reply: Reply<R>)
      requires Valid()
      modifies this
      ensures Valid()
      ensures i in old(ledger) ==> tables == old(tables) && ledger == old(ledger) && done == old(done)
      ensures i in old(ledger) ==> reply == if old(ledger)[i].intent == intent then Answer(old(ledger)[i].response) else Mismatch
      ensures i !in old(ledger) ==>
        if run(old(tables), intent) == None || luck == Unpublished
        then tables == old(tables) && ledger == old(ledger) && done == old(done) && !reply.Answer?
        else
          var (after, response) := run(old(tables), intent).value;
          tables == after && ledger == old(ledger)[i := Entry(intent, response)] && done == old(done) + [Done(i, intent)]
          && reply == if luck == Good then Answer(response) else NoReply
      ensures Attempted(run, View(old(tables), old(ledger)), View(tables, ledger), Attempt(i, intent, luck), reply)
      ensures forall k :: k in old(ledger) ==> k in ledger && ledger[k] == old(ledger)[k]
    {
      var previous := Replay(i, intent);
      if previous.Some? {
        return previous.value;
      }
      var outcome := run(tables, intent);
      if outcome == None {
        return Refused;
      }
      if luck == Unpublished {
        return NoReply;
      }
      var (after, response) := outcome.value;
      Remember(i, intent, after, response);
      return if luck == Good then Answer(response) else NoReply;
    }

    /** Any number of attempts, of any requests, in any order and with any luck: each is answered as it must be, trace
        being the states between them; all answers to one identifier are the same, and the tables are those of executing
        each request that took effect exactly once. */
    method Serve(attempts: seq<Attempt<Q>>) returns (replies: seq<Reply<R>>, ghost trace: seq<View<S, Q, R>>)
      requires Valid()
      modifies this
      ensures Valid() && |replies| == |attempts|
      ensures |trace| == |attempts| + 1 && trace[0] == View(old(tables), old(ledger)) && trace[|attempts|] == View(tables, ledger)
      ensures forall i :: 0 <= i < |attempts| ==> Attempted(run, trace[i], trace[i + 1], attempts[i], replies[i])
      ensures forall i :: 0 <= i < |attempts| ==> Told(ledger, attempts[i], replies[i])
      ensures forall k :: k in old(ledger) ==> k in ledger && ledger[k] == old(ledger)[k]
    {
      replies, trace := [], [View(tables, ledger)];
      while |replies| < |attempts|
        invariant |replies| <= |attempts| && Valid()
        invariant |trace| == |replies| + 1 && trace[0] == View(old(tables), old(ledger)) && trace[|replies|] == View(tables, ledger)
        invariant forall i :: 0 <= i < |replies| ==> Attempted(run, trace[i], trace[i + 1], attempts[i], replies[i])
        invariant forall i :: 0 <= i < |replies| ==> Told(ledger, attempts[i], replies[i])
        invariant forall k :: k in old(ledger) ==> k in ledger && ledger[k] == old(ledger)[k]
        decreases |attempts| - |replies|
      {
        var a := attempts[|replies|];
        ghost var before := ledger;
        var reply := UnaryOnce(a.id, a.intent, a.luck);
        forall i | 0 <= i < |replies| ensures Told(ledger, attempts[i], replies[i]) {
          StillTold(before, ledger, attempts[i], replies[i]);
        }
        replies, trace := replies + [reply], trace + [View(tables, ledger)];
      }
    }
  }
}
