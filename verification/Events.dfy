/**
 The event bus: who is subscribed to what, and the protocol by which concurrent emitters tell a slow
 subscriber that it has missed events.
 */
module Events {
  import opened Ledger

  // ---- One subscriber's channel, step by step ----

  datatype Msg = Event(event: nat) | Resync

  /**
   Where an emitter stands in its send to this subscriber: after the swap it sends a Resync first if the flag
   was set, then the event; after a failed attempt it still has to set the flag.
   */
  datatype Phase = Idle | Resyncing(event: nat) | Sending(event: nat) | Flagging

  datatype Outcome = Accepted(msg: Msg) | Dropped(event: nat)

  /** `drained` and `history` record what happened; the code keeps only the other parts. */
  datatype Channel = Channel(queue: seq<Msg>, lagged: bool, phases: seq<Phase>, drained: seq<Msg>, history: seq<Outcome>)

  datatype Action = Swap(emitter: nat, event: nat) | TrySend(emitter: nat) | Store(emitter: nat) | Drain

  function Fresh(emitters: nat): Channel {
    Channel([], false, seq(emitters, _ => Idle), [], [])
  }

  predicate Enabled(s: Channel, a: Action) {
    match a
    case Swap(e, _) => e < |s.phases| && s.phases[e].Idle?
    case TrySend(e) => e < |s.phases| && (s.phases[e].Resyncing? || s.phases[e].Sending?)
    case Store(e) => e < |s.phases| && s.phases[e].Flagging?
    case Drain => s.queue != []
  }

  /** The effect of `try_send`: the message is queued if there is room, and the emitter moves on. */
  function Attempt(cap: nat, s: Channel, e: nat): Channel
    requires e < |s.phases| && (s.phases[e].Resyncing? || s.phases[e].Sending?)
  {
    var ev := s.phases[e].event;
    var msg := if s.phases[e].Resyncing? then Resync else Event(ev);
    if |s.queue| < cap then
      s.(queue := s.queue + [msg], history := s.history + [Accepted(msg)],
         phases := s.phases[e := if s.phases[e].Resyncing? then Sending(ev) else Idle])
    else
      s.(history := s.history + [Dropped(ev)], phases := s.phases[e := Flagging])
  }

  function Step(cap: nat, s: Channel, a: Action): Channel
    requires Enabled(s, a)
  {
    match a
    case Swap(e, ev) => s.(lagged := false, phases := s.phases[e := if s.lagged then Resyncing(ev) else Sending(ev)])
    case TrySend(e) => Attempt(cap, s, e)
    case Store(e) => s.(lagged := true, phases := s.phases[e := Idle])
    case Drain => s.(queue := s.queue[1..], drained := s.drained + [s.queue[0]])
  }

  /** Every action of the run is possible when it happens. */
  predicate Legal(cap: nat, s: Channel, run: seq<Action>)
    decreases |run|, 0
  {
    run == [] || (Legal(cap, s, run[..|run| - 1]) && Enabled(After(cap, s, run[..|run| - 1]), run[|run| - 1]))
  }

  function After(cap: nat, s: Channel, run: seq<Action>): Channel
    requires Legal(cap, s, run)
    decreases |run|, 1
  {
    if run == [] then s else Step(cap, After(cap, s, run[..|run| - 1]), run[|run| - 1])
  }

  // ---- Every drop is covered ----

  /** A Resync was queued after outcome `d`. */
  ghost predicate ResyncAfter(h: seq<Outcome>, d: nat) {
    exists j :: d < j < |h| && h[j] == Accepted(Resync)
  }

  /** An emitter is on its way to a Resync or to setting the flag. */
  ghost predicate InFlight(s: Channel) {
    exists e :: 0 <= e < |s.phases| && (s.phases[e].Resyncing? || s.phases[e].Flagging?)
  }

  ghost predicate Covered(s: Channel, d: nat) {
    s.lagged || InFlight(s) || ResyncAfter(s.history, d)
  }

  ghost predicate AllCovered(s: Channel) {
    forall d | 0 <= d < |s.history| && s.history[d].Dropped? :: Covered(s, d)
  }

  lemma StepCovers(cap: nat, s: Channel, a: Action)
    requires AllCovered(s) && Enabled(s, a)
    ensures AllCovered(Step(cap, s, a))
  {
    var t := Step(cap, s, a);
    forall d | 0 <= d < |t.history| && t.history[d].Dropped? ensures Covered(t, d) {
      match a {
        case Swap(e, _) =>
          assert Covered(s, d);
          if s.lagged {
            assert t.phases[e].Resyncing?;
          } else if InFlight(s) {
            var k :| 0 <= k < |s.phases| && (s.phases[k].Resyncing? || s.phases[k].Flagging?);
            assert t.phases[k] == s.phases[k];
          }
        case TrySend(e) => AttemptCovers(cap, s, e, d);
        case Store(e) => assert t.lagged;
        case Drain => assert Covered(s, d);
      }
    }
  }

  lemma AttemptCovers(cap: nat, s: Channel, e: nat, d: nat)
    requires AllCovered(s) && Enabled(s, TrySend(e))
    requires d < |Attempt(cap, s, e).history| && Attempt(cap, s, e).history[d].Dropped?
    ensures Covered(Attempt(cap, s, e), d)
  {
    var t := Attempt(cap, s, e);
    if |s.queue| >= cap {
      assert t.phases[e].Flagging?;
    } else if s.phases[e].Resyncing? {
      assert t.history[|s.history|] == Accepted(Resync);
    } else {
      assert s.history[d].Dropped? && Covered(s, d);
      if InFlight(s) {
        var k :| 0 <= k < |s.phases| && (s.phases[k].Resyncing? || s.phases[k].Flagging?);
        assert t.phases[k] == s.phases[k];
      } else if ResyncAfter(s.history, d) {
        var j :| d < j < |s.history| && s.history[j] == Accepted(Resync);
        assert t.history[j] == s.history[j];
      }
    }
  }

  /**
   In every run with any number of concurrent emitters and a draining receiver, each dropped event is covered
   by the flag, by an emitter in flight toward a Resync or the flag, or by a Resync queued after the drop.
   */
  lemma {:induction false} DropsCovered(cap: nat, emitters: nat, run: seq<Action>)
    requires Legal(cap, Fresh(emitters), run)
    ensures AllCovered(After(cap, Fresh(emitters), run))
    decreases |run|
  {
    hide Covered, Step;
    if run != [] {
      DropsCovered(cap, emitters, run[..|run| - 1]);
      StepCovers(cap, After(cap, Fresh(emitters), run[..|run| - 1]), run[|run| - 1]);
    }
  }

  /** Once every emitter is idle and the flag is clear, nothing is missed silently. */
  lemma QuietMeansTold(cap: nat, emitters: nat, run: seq<Action>, d: nat)
    requires Legal(cap, Fresh(emitters), run)
    requires var s := After(cap, Fresh(emitters), run);
             && d < |s.history| && s.history[d].Dropped? && !s.lagged && forall e | 0 <= e < |s.phases| :: s.phases[e].Idle?
    ensures ResyncAfter(After(cap, Fresh(emitters), run).history, d)
  {
    DropsCovered(cap, emitters, run);
    assert Covered(After(cap, Fresh(emitters), run), d);
  }

  // ---- The queue ----

  /** The accepted messages in order. */
  function Sent(h: seq<Outcome>): seq<Msg> {
    if h == [] then []
    else Sent(h[..|h| - 1]) + (if h[|h| - 1].Accepted? then [h[|h| - 1].msg] else [])
  }

  ghost predicate QueueOk(cap: nat, s: Channel) {
    |s.queue| <= cap && s.drained + s.queue == Sent(s.history)
  }

  lemma StepQueue(cap: nat, s: Channel, a: Action)
    requires QueueOk(cap, s) && Enabled(s, a)
    ensures QueueOk(cap, Step(cap, s, a))
  {
    var t := Step(cap, s, a);
    match a {
      case TrySend(e) =>
        assert t.history[..|s.history|] == s.history;
        if |s.queue| < cap { assert s.drained + (s.queue + [t.history[|s.history|].msg]) == (s.drained + s.queue) + [t.history[|s.history|].msg]; }
      case Drain => assert (s.drained + [s.queue[0]]) + s.queue[1..] == s.drained + s.queue;
      case _ =>
    }
  }

  /** In every run the buffer stays within its capacity and the receiver gets exactly what was accepted, in order. */
  lemma {:induction false} QueueExact(cap: nat, emitters: nat, run: seq<Action>)
    requires Legal(cap, Fresh(emitters), run)
    ensures QueueOk(cap, After(cap, Fresh(emitters), run))
    decreases |run|
  {
    hide Step;
    if run != [] {
      QueueExact(cap, emitters, run[..|run| - 1]);
      StepQueue(cap, After(cap, Fresh(emitters), run[..|run| - 1]), run[|run| - 1]);
    }
  }

  // ---- When the first message after a drop is a Resync ----

  /** The first message accepted after a drop is a Resync. */
  ghost predicate ResyncFirst(h: seq<Outcome>) {
    forall i | 0 <= i < |h| - 1 && h[i].Dropped? && h[i + 1].Accepted? :: h[i + 1].msg == Resync
  }

  ghost predicate EndsInDrop(h: seq<Outcome>) {
    h != [] && h[|h| - 1].Dropped?
  }

  ghost predicate OneEmitter(s: Channel) {
    && |s.phases| <= 1 && ResyncFirst(s.history)
    && (EndsInDrop(s.history) ==> |s.phases| == 1 && !s.phases[0].Sending? && (s.phases[0].Idle? ==> s.lagged))
  }

  lemma StepOneEmitter(cap: nat, s: Channel, a: Action)
    requires OneEmitter(s) && Enabled(s, a)
    ensures OneEmitter(Step(cap, s, a))
  {
    var t := Step(cap, s, a);
    if a.TrySend? {
      var n := |s.history|;
      assert t.history[..n] == s.history;
      forall i | 0 <= i < |t.history| - 1 && t.history[i].Dropped? && t.history[i + 1].Accepted? ensures t.history[i + 1].msg == Resync {
        assert t.history[i] == s.history[i];
        if i + 1 < n { assert t.history[i + 1] == s.history[i + 1]; }
      }
    }
  }

  /** With at most one emitter, whatever the receiver does, the first message accepted after a drop is a Resync. */
  lemma {:induction false} SingleEmitterResyncs(cap: nat, emitters: nat, run: seq<Action>)
    requires emitters <= 1 && Legal(cap, Fresh(emitters), run)
    ensures ResyncFirst(After(cap, Fresh(emitters), run).history) && OneEmitter(After(cap, Fresh(emitters), run))
    decreases |run|
  {
    hide Step, ResyncFirst, EndsInDrop;
    if run == [] {
      NothingYet();
    } else {
      SingleEmitterResyncs(cap, emitters, run[..|run| - 1]);
      StepOneEmitter(cap, After(cap, Fresh(emitters), run[..|run| - 1]), run[|run| - 1]);
    }
  }

  lemma NothingYet()
    ensures ResyncFirst([]) && !EndsInDrop([])
  {
  }

  /** Without a buffer nothing is ever accepted. */
  lemma {:induction false} NothingFits(emitters: nat, run: seq<Action>)
    requires Legal(0, Fresh(emitters), run)
    ensures AllDropped(After(0, Fresh(emitters), run).history)
    decreases |run|
  {
    hide Step;
    if run != [] {
      NothingFits(emitters, run[..|run| - 1]);
      StepDrops(After(0, Fresh(emitters), run[..|run| - 1]), run[|run| - 1]);
    }
  }

  ghost predicate AllDropped(h: seq<Outcome>) {
    forall i | 0 <= i < |h| :: h[i].Dropped?
  }

  lemma StepDrops(s: Channel, a: Action)
    requires AllDropped(s.history) && Enabled(s, a)
    ensures AllDropped(Step(0, s, a).history)
  {
  }

  /** A run that fills the buffer: one emitter sends `n` events. */
  function Fill(n: nat): seq<Action> {
    if n == 0 then [] else Fill(n - 1) + [Swap(0, n), TrySend(0)]
  }

  lemma {:induction false} Filled(cap: nat, emitters: nat, n: nat)
    requires n <= cap && emitters >= 2
    ensures Legal(cap, Fresh(emitters), Fill(n))
    ensures var s := After(cap, Fresh(emitters), Fill(n)); |s.queue| == n && !s.lagged && s.phases == Fresh(emitters).phases
    decreases n
  {
    if n > 0 {
      Filled(cap, emitters, n - 1);
      var s0, run := Fresh(emitters), Fill(n - 1);
      Extend(cap, s0, run, Swap(0, n));
      Extend(cap, s0, run + [Swap(0, n)], TrySend(0));
      assert Fill(n) == run + [Swap(0, n)] + [TrySend(0)];
    }
  }

  lemma Extend(cap: nat, s: Channel, run: seq<Action>, a: Action)
    requires Legal(cap, s, run) && Enabled(After(cap, s, run), a)
    ensures Legal(cap, s, run + [a]) && After(cap, s, run + [a]) == Step(cap, After(cap, s, run), a)
  {
    assert (run + [a])[..|run|] == run;
  }

  /**
   With two or more emitters an event can overtake the Resync: the second emitter passes the swap, the first
   one's event is dropped, the receiver drains one message, and the second emitter's event goes in.
   */
  lemma EmittersCanOvertake(cap: nat, emitters: nat) returns (run: seq<Action>)
    requires cap > 0 && emitters >= 2
    ensures Legal(cap, Fresh(emitters), run) && !ResyncFirst(After(cap, Fresh(emitters), run).history)
  {
    hide After, Legal;
    Filled(cap, emitters, cap);
    var s0, r0 := Fresh(emitters), Fill(cap);
    var s := After(cap, s0, r0);
    var idle := s.phases;
    Extend(cap, s0, r0, Swap(1, 100));
    var r1 := r0 + [Swap(1, 100)];
    assert After(cap, s0, r1) == s.(phases := idle[1 := Sending(100)]);
    Extend(cap, s0, r1, Swap(0, 101));
    var r2 := r1 + [Swap(0, 101)];
    assert After(cap, s0, r2) == s.(phases := idle[1 := Sending(100)][0 := Sending(101)]);
    Extend(cap, s0, r2, TrySend(0));
    var r3 := r2 + [TrySend(0)];
    assert After(cap, s0, r3)
        == s.(phases := idle[1 := Sending(100)][0 := Sending(101)][0 := Flagging], history := s.history + [Dropped(101)]);
    Extend(cap, s0, r3, Drain);
    var r4 := r3 + [Drain];
    Extend(cap, s0, r4, TrySend(1));
    run := r4 + [TrySend(1)];
    var n := |s.history|;
    var h := After(cap, s0, run).history;
    assert h == s.history + [Dropped(101)] + [Accepted(Event(100))];
    assert h[n] == Dropped(101) && h[n + 1] == Accepted(Event(100));
  }

  ghost predicate AlwaysResyncFirst(cap: nat, emitters: nat) {
    forall run | Legal(cap, Fresh(emitters), run) :: ResyncFirst(After(cap, Fresh(emitters), run).history)
  }

  /** In every run the first message accepted after a drop is a Resync, exactly if at most one emitter sends or nothing fits. */
  lemma ResyncFirstIff(cap: nat, emitters: nat)
    ensures AlwaysResyncFirst(cap, emitters) <==> emitters <= 1 || cap == 0
  {
    hide After, Legal;
    if emitters <= 1 {
      forall run | Legal(cap, Fresh(emitters), run) ensures ResyncFirst(After(cap, Fresh(emitters), run).history) {
        SingleEmitterResyncs(cap, emitters, run);
      }
    } else if cap == 0 {
      forall run | Legal(cap, Fresh(emitters), run) ensures ResyncFirst(After(cap, Fresh(emitters), run).history) {
        NothingFits(emitters, run);
      }
    } else {
      var run := EmittersCanOvertake(cap, emitters);
      assert Legal(cap, Fresh(emitters), run);
    }
  }

  // ---- Subscriptions ----

  type ScriptKey = Bytes
  type Routes = map<ScriptKey, set<nat>>

  /** Who wants what, as a function of the subscriptions; a script without subscriber has no row. */
  ghost predicate RoutesFor(routes: Routes, wants: map<nat, set<ScriptKey>>) {
    && (forall script | script in routes :: routes[script] != {})
    && (forall script, id :: Routed(routes, script, id) <==> Wanted(wants, id, script))
  }

  predicate Routed(routes: Routes, script: ScriptKey, id: nat) {
    script in routes && id in routes[script]
  }

  predicate Wanted(wants: map<nat, set<ScriptKey>>, id: nat, script: ScriptKey) {
    id in wants && script in wants[id]
  }

  lemma RoutesUnique(a: Routes, b: Routes, wants: map<nat, set<ScriptKey>>)
    requires RoutesFor(a, wants) && RoutesFor(b, wants)
    ensures a == b
  {
    forall script | script in a ensures script in b && a[script] == b[script] {
      var id :| id in a[script];
      assert Routed(a, script, id) && Routed(b, script, id);
      forall x: nat ensures x in a[script] <==> x in b[script] {
        assert Routed(a, script, x) <==> Routed(b, script, x);
      }
    }
    forall script | script in b ensures script in a {
      var id :| id in b[script];
      assert Routed(b, script, id) && Routed(a, script, id);
    }
  }

  function ScriptSet(scripts: seq<ScriptKey>): set<ScriptKey> {
    set s | s in scripts
  }

  class EventBus {
    var routes: Routes
    var subscribers: map<nat, bool>          // whether the subscriber wants tip events
    var nextId: nat
    ghost var wants: map<nat, set<ScriptKey>>

    ghost predicate Valid()
      reads this
    {
      && RoutesFor(routes, wants) && wants.Keys == subscribers.Keys
      && forall id | id in subscribers :: id < nextId
    }

    constructor ()
      ensures Valid() && routes == map[] && subscribers == map[]
    {
      routes, subscribers, nextId, wants := map[], map[], 1, map[];
    }

    method Subscribe(scripts: seq<ScriptKey>, wantsTip: bool) returns (id: nat)
      requires Valid()
      modifies this
      ensures Valid() && id !in old(subscribers) && subscribers == old(subscribers)[id := wantsTip]
      ensures wants == old(wants)[id := ScriptSet(scripts)]
    {
      id := nextId;
      nextId := nextId + 1;
      subscribers := subscribers[id := wantsTip];
      for i := 0 to |scripts|
        invariant id == old(nextId) && nextId == id + 1 && subscribers == old(subscribers)[id := wantsTip] && wants == old(wants)
        invariant RoutesFor(routes, wants[id := ScriptSet(scripts[..i])])
      {
        var script := scripts[i];
        AddRoute(routes, wants, id, ScriptSet(scripts[..i]), script);
        assert ScriptSet(scripts[..i]) + {script} == ScriptSet(scripts[..i + 1]) by { SeqSnoc(scripts, i); }
        routes := routes[script := (if script in routes then routes[script] else {}) + {id}];
      }
      assert scripts[..|scripts|] == scripts;
      wants := wants[id := ScriptSet(scripts)];
    }

    method Unsubscribe(id: nat)
      requires Valid()
      modifies this
      ensures Valid() && subscribers == old(subscribers) - {id} && wants == old(wants) - {id}
    {
      var kept: Routes := map[];
      var todo := routes.Keys;
      while todo != {}
        invariant todo <= routes.Keys && Valid() && unchanged(this)
        invariant forall s | s in kept :: s in routes && s !in todo && kept[s] == routes[s] - {id} && kept[s] != {}
        invariant forall s | s in routes && s !in todo && routes[s] - {id} != {} :: s in kept
        decreases |todo|
      {
        var s :| s in todo;
        if routes[s] - {id} != {} { kept := kept[s := routes[s] - {id}]; }
        todo := todo - {s};
      }
      DropRoutes(routes, kept, wants, id);
      routes := kept;
      subscribers := subscribers - {id};
      wants := wants - {id};
    }

    /** Subscribing and unsubscribing leaves the bus as it was: no route leaks. */
    method SubscribeThenLeave(scripts: seq<ScriptKey>, wantsTip: bool)
      requires Valid()
      modifies this
      ensures Valid() && routes == old(routes) && subscribers == old(subscribers)
    {
      var id := Subscribe(scripts, wantsTip);
      Unsubscribe(id);
      assert wants == old(wants);
      RoutesUnique(routes, old(routes), wants);
    }
  }

  lemma SeqSnoc(scripts: seq<ScriptKey>, i: nat)
    requires i < |scripts|
    ensures forall s :: s in scripts[..i + 1] <==> s in scripts[..i] || s == scripts[i]
  {
    assert scripts[..i + 1] == scripts[..i] + [scripts[i]];
  }

  lemma AddRoute(routes: Routes, wants: map<nat, set<ScriptKey>>, id: nat, mine: set<ScriptKey>, script: ScriptKey)
    requires RoutesFor(routes, wants[id := mine])
    ensures RoutesFor(routes[script := (if script in routes then routes[script] else {}) + {id}], wants[id := mine + {script}])
  {
    var r := routes[script := (if script in routes then routes[script] else {}) + {id}];
    var w := wants[id := mine + {script}];
    forall s, x ensures Routed(r, s, x) <==> Wanted(w, x, s) {
      assert Routed(routes, s, x) <==> Wanted(wants[id := mine], x, s);
    }
  }

  lemma DropRoutes(routes: Routes, kept: Routes, wants: map<nat, set<ScriptKey>>, id: nat)
    requires RoutesFor(routes, wants)
    requires forall s | s in kept :: s in routes && kept[s] == routes[s] - {id} && kept[s] != {}
    requires forall s | s in routes && routes[s] - {id} != {} :: s in kept
    ensures RoutesFor(kept, wants - {id})
  {
    forall s, x ensures Routed(kept, s, x) <==> Wanted(wants - {id}, x, s) {
      assert Routed(routes, s, x) <==> Wanted(wants, x, s);
      if x != id && Routed(routes, s, x) {
        assert x in routes[s] - {id};
      }
    }
  }
}
