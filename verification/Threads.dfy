/** Cooperative threads: a ring of pairs holds the suspended continuations, and
    one empty slot stands for the thread that runs. */
module Threads {
  import opened Wrappers

  // What the ring does, as a queue.

  /** The thread that runs, and those that wait, next one first. */
  datatype Queue = Queue(running: nat, waiting: seq<nat>)

  datatype Event = Spawn(thread: nat) | Yield | Exit

  /** A spawned thread runs at once, its parent is next. Leaving the last thread
      changes nothing: exit returns to its caller. */
  function After(q: Queue, e: Event): Queue {
    match e
    case Spawn(t) => Queue(t, [q.running] + q.waiting)
    case Yield => var all := q.waiting + [q.running]; Queue(all[0], all[1..])
    case Exit => if q.waiting == [] then q else Queue(q.waiting[0], q.waiting[1..])
  }

  function AfterAll(q: Queue, events: seq<Event>): Queue
    decreases |events|
  {
    if events == [] then q else AfterAll(After(q, events[0]), events[1..])
  }

  // The ring.

  /** One cycle of pairs; only the slot of the running thread is empty. */
  ghost predicate Cycle(ring: seq<nat>, readyq: nat, car: map<nat, Option<nat>>, cdr: map<nat, nat>, pairs: nat) {
    && ring != [] && ring[0] == readyq
    && (forall p :: p in car || p in cdr ==> p < pairs)
    && (forall i, j :: 0 <= i < j < |ring| ==> ring[i] != ring[j])
    && (forall i :: 0 <= i < |ring| ==> ring[i] in car && ring[i] in cdr && (car[ring[i]].None? <==> i == 0))
    && (forall i :: 0 <= i < |ring| - 1 ==> cdr[ring[i]] == ring[i + 1])
    && cdr[ring[|ring| - 1]] == ring[0]
  }

  lemma OneMorePair(ring: seq<nat>, readyq: nat, car: map<nat, Option<nat>>, cdr: map<nat, nat>, pairs: nat, k: nat)
    requires Cycle(ring, readyq, car, cdr, pairs)
    ensures ring != [] && readyq in cdr
    ensures Cycle([ring[0], pairs] + ring[1..], readyq, car[pairs := Some(k)],
            cdr[pairs := cdr[readyq]][readyq := pairs], pairs + 1)
    ensures forall i :: 1 <= i < |ring| ==>
              ring[i] in car && ([ring[0], pairs] + ring[1..])[i + 1] == ring[i]
                && car[pairs := Some(k)][ring[i]] == car[ring[i]]
  {
    var ring' := [ring[0], pairs] + ring[1..];
    assert forall i :: 2 <= i < |ring'| ==> ring'[i] == ring[i - 1];
  }

  class ThreadRing {
    var car: map<nat, Option<nat>>   // a continuation, or false
    var cdr: map<nat, nat>
    var pairs: nat                   // pairs made so far
    var readyq: nat
    ghost var ring: seq<nat>         // the pairs in order, from readyq on
    var running: nat                 // the thread that runs, as get-cont gives it

    ghost predicate Valid()
      reads this
    {
      Cycle(ring, readyq, car, cdr, pairs)
    }

    ghost function Waiting(): (w: seq<nat>)
      requires Valid()
      reads this
      ensures |w| == |ring| - 1 && forall i :: 0 <= i < |w| ==> w[i] == car[ring[i + 1]].value
    {
      seq(|ring| - 1, i requires 0 <= i < |ring| - 1 && Valid() reads this => car[ring[i + 1]].value)
    }

    ghost function State(): Queue
      requires Valid()
      reads this
    {
      Queue(running, Waiting())
    }

    /** The first process, on a ring of its own. */
    constructor (thread: nat)
      ensures Valid() && State() == Queue(thread, [])
    {
      car, cdr, pairs, readyq := map[0 := None], map[0 := 0], 1, 0;
      ring, running := [0], thread;
    }

    method NewPair(k: Option<nat>, next: nat) returns (p: nat)
      modifies `car, `cdr, `pairs
      ensures p == old(pairs) && pairs == p + 1 && car == old(car)[p := k] && cdr == old(cdr)[p := next]
    {
      p, pairs := pairs, pairs + 1;
      car, cdr := car[p := k], cdr[p := next];
    }

    /** The caller is queued next; the new thread runs. */
    method SpawnThread(thread: nat)
      requires Valid()
      modifies this
      ensures Valid() && State() == After(old(State()), Spawn(thread))
    {
      hide Cycle;
      OneMorePair(ring, readyq, car, cdr, pairs, running);
      var next := NewPair(Some(running), cdr[readyq]);
      cdr := cdr[readyq := next];
      ring, running := [ring[0], next] + ring[1..], thread;
    }

    lemma NextPair()
      requires Valid()
      ensures cdr[readyq] == ring[if |ring| > 1 then 1 else 0]
      ensures cdr[readyq] == readyq <==> |ring| == 1
    {
      if |ring| > 1 {
        assert ring[0] != ring[1];
      }
    }

    /** None when the caller goes on because no thread waits, otherwise the
        continuation to go on with. */
    method ExitThread() returns (r: Option<nat>)
      requires Valid()
      modifies this
      ensures Valid() && State() == After(old(State()), Exit)
      ensures r == if old(State()).waiting == [] then None else Some(State().running)
    {
      NextPair();
      var next := cdr[readyq];
      if next == readyq {
        return None;
      }
      cdr := cdr[readyq := cdr[next]];
      ring, running := [ring[0]] + ring[2..], car[next].value;
      return car[next];
    }

    /** The continuation to go on with, which may be the caller's own. */
    method YieldThread() returns (r: nat)
      requires Valid()
      modifies this
      ensures Valid() && State() == After(old(State()), Yield)
      ensures r == State().running
    {
      NextPair();
      car := car[readyq := Some(running)];
      readyq := cdr[readyq];
      r := car[readyq].value;
      car := car[readyq := None];
      ring, running := ring[1..] + [ring[0]], r;
    }
  }

  // Runs.

  ghost function Threads(q: Queue): multiset<nat> {
    multiset{q.running} + multiset(q.waiting)
  }

  lemma AllThere(all: seq<nat>)
    requires all != []
    ensures multiset(all) == multiset{all[0]} + multiset(all[1..])
  {
    assert all == [all[0]] + all[1..];
  }

  /** No suspended continuation is lost and none is there twice: a spawn adds one
      thread, an exit takes the running one, and a yield changes nothing. */
  lemma ThreadsKept(q: Queue, e: Event)
    ensures Threads(After(q, e)) == match e
      case Spawn(t) => Threads(q) + multiset{t}
      case Yield => Threads(q)
      case Exit => if q.waiting == [] then Threads(q) else Threads(q) - multiset{q.running}
  {
    match e {
      case Spawn(t) => assert multiset([q.running] + q.waiting) == multiset([q.running]) + multiset(q.waiting);
      case Yield => AllThere(q.waiting + [q.running]);
      case Exit =>
        if q.waiting != [] {
          AllThere(q.waiting);
        }
    }
  }

  /** How far the events bring a waiting thread towards its turn: a yield or an
      exit one place, a spawn one place back. */
  function Advance(e: Event): int {
    match e
    case Spawn(_) => -1
    case Yield => 1
    case Exit => 1
  }

  function AdvanceAll(events: seq<Event>): int {
    if events == [] then 0 else Advance(events[0]) + AdvanceAll(events[1..])
  }

  /** The thread at place i is at place i - 1 after a yield or exit, where the
      place before the first is that of the running thread. */
  lemma PlaceMoves(q: Queue, e: Event, i: nat)
    requires i < |q.waiting|
    ensures var j := i - Advance(e); var q' := After(q, e);
            if j < 0 then q'.running == q.waiting[i] else j < |q'.waiting| && q'.waiting[j] == q.waiting[i]
  {
  }

  /** A thread that waits at place i gets its turn as soon as the yields and exits
      outnumber the spawns by i + 1, and until then it is exactly as far from its
      turn as they say. */
  lemma {:induction false} TurnComes(q: Queue, events: seq<Event>, i: nat)
    requires i < |q.waiting|
    requires forall n :: 0 <= n < |events| ==> AdvanceAll(events[..n]) <= i
    ensures var j := i - AdvanceAll(events); var q' := AfterAll(q, events);
            if j < 0 then q'.running == q.waiting[i] else j < |q'.waiting| && q'.waiting[j] == q.waiting[i]
    decreases |events|
  {
    if events != [] {
      PlaceMoves(q, events[0], i);
      assert events[..1][0] == events[0] && events[..1][1..] == [];
      if |events| > 1 {
        assert AdvanceAll(events[..1]) <= i;
        var j := i - Advance(events[0]);
        forall n | 0 <= n < |events[1..]|
          ensures AdvanceAll(events[1..][..n]) <= j
        {
          assert events[..n + 1][1..] == events[1..][..n];
          assert AdvanceAll(events[..n + 1]) <= i;
        }
        TurnComes(After(q, events[0]), events[1..], j);
      } else {
        assert events[1..] == [];
      }
    }
  }

  /** Any run of the ring is the run of the queue. */
  method RunRing(ring: ThreadRing, events: seq<Event>)
    requires ring.Valid()
    modifies ring
    ensures ring.Valid() && ring.State() == AfterAll(old(ring.State()), events)
  {
    ghost var start := ring.State();
    assert events[0..] == events;
    for n := 0 to |events|
      invariant ring.Valid() && AfterAll(ring.State(), events[n..]) == AfterAll(start, events)
    {
      assert events[n..][1..] == events[n + 1..];
      match events[n] {
        case Spawn(t) => ring.SpawnThread(t);
        case Yield => var r := ring.YieldThread();
        case Exit => var r := ring.ExitThread();
      }
    }
  }
}
