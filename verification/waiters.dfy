/** The aggregated abort signal of requests that share one wake (share-waiters.ts): it fires only when
    every request that joined it has left. */
module Waiters {
  import opened Common
  import Seats

  type Key = string

  /** The abort signal of one request. */
  type Hook = nat

  /** One aggregate controller. `joined` and `key` record who joined it while alive, and under which key. */
  datatype Entry = Entry(waiters: set<Hook>, listeners: set<Hook>, aborted: bool, joined: set<Hook>, key: Key)

  /** `keys` maps a key to its current controller; `left` are the requests that have left or aborted, and
      `seen` maps each request that ever joined to its key. */
  datatype Aggregate = Aggregate(keys: map<Key, nat>, entries: seq<Entry>, left: set<Hook>, seen: map<Hook, Key>)

  const Nobody := Aggregate(map[], [], {}, map[])

  /** The controller a join of this key uses: the current one unless it has fired. */
  function Current(a: Aggregate, key: Key): Option<nat> {
    if key in a.keys && a.keys[key] < |a.entries| && !a.entries[a.keys[key]].aborted then Some(a.keys[key]) else None
  }

  function Opened(a: Aggregate, key: Key): Aggregate {
    if Current(a, key).Some? then a
    else a.(keys := a.keys[key := |a.entries|], entries := a.entries + [Entry({}, {}, false, {}, key)])
  }

  function Set(a: Aggregate, e: nat, x: Entry): Aggregate
    requires e < |a.entries|
  {
    a.(entries := a.entries[e := x])
  }

  /** join. A request that has already aborted takes no place, and fires a controller nobody waits on. */
  function Join(a: Aggregate, key: Key, hook: Hook, gone: bool): Aggregate
  {
    var o := Opened(a, key).(seen := a.seen[hook := key]);
    var e := if Current(a, key).Some? then Current(a, key).value else |a.entries|;
    if e >= |o.entries| then o else
    var x := o.entries[e];
    if gone then
      var p := o.(left := o.left + {hook});
      if x.waiters == {} && !x.aborted then Set(p, e, x.(aborted := true)).(keys := p.keys - {key}) else p
    else Set(o, e, x.(waiters := x.waiters + {hook}, listeners := x.listeners + {hook}, joined := x.joined + {hook}))
  }

  /** leave, called when the request settles and by its abort listener: the second call finds nothing. */
  function Leave(a: Aggregate, key: Key, hook: Hook): Aggregate {
    var l := a.(left := a.left + {hook});
    if key !in a.keys || a.keys[key] >= |a.entries| then l else
    var e := a.keys[key];
    var x := a.entries[e].(listeners := a.entries[e].listeners - {hook});
    if hook !in x.waiters then Set(l, e, x)
    else if x.waiters == {hook} then Set(l, e, x.(waiters := {}, aborted := true)).(keys := l.keys - {key})
    else Set(l, e, x.(waiters := x.waiters - {hook}))
  }

  // ------------------------------------------------------------------ what every step keeps

  /** A controller waits for exactly those who joined and have not left, has fired exactly when they are
      none, and is the current one of its key exactly while it has not fired. */
  predicate EntryOk(a: Aggregate, e: nat)
    requires e < |a.entries|
  {
    var x := a.entries[e];
    && x.waiters == x.joined - a.left && x.listeners == x.waiters
    && (x.aborted <==> x.waiters == {})
    && (!x.aborted <==> x.key in a.keys && a.keys[x.key] == e)
    && (forall h :: h in x.joined ==> h in a.seen && a.seen[h] == x.key)
  }

  predicate Inv(a: Aggregate) {
    && (forall k :: k in a.keys ==> a.keys[k] < |a.entries| && a.entries[a.keys[k]].key == k)
    && (forall e: nat :: e < |a.entries| ==> EntryOk(a, e))
  }

  lemma KeysAreLive(a: Aggregate)
    requires Inv(a)
    ensures forall k :: k in a.keys ==> Current(a, k) == Some(a.keys[k])
  {
    forall k | k in a.keys
      ensures Current(a, k) == Some(a.keys[k])
    {
      assert EntryOk(a, a.keys[k]);
    }
  }

  lemma LiveJoinKeepsInv(a: Aggregate, key: Key, hook: Hook)
    requires Inv(a) && hook !in a.seen && hook !in a.left
    ensures Inv(Join(a, key, hook, false))
  {
    KeysAreLive(a);
    var t := Join(a, key, hook, false);
    forall e: nat | e < |t.entries|
      ensures EntryOk(t, e)
    {
      if e < |a.entries| { assert EntryOk(a, e); }
    }
  }

  lemma GoneJoinKeepsInv(a: Aggregate, key: Key, hook: Hook)
    requires Inv(a) && hook !in a.seen && hook !in a.left
    ensures Inv(Join(a, key, hook, true))
  {
    KeysAreLive(a);
    var t := Join(a, key, hook, true);
    forall e: nat | e < |t.entries|
      ensures EntryOk(t, e)
    {
      if e < |a.entries| { assert EntryOk(a, e); }
    }
  }

  lemma JoinKeepsInv(a: Aggregate, key: Key, hook: Hook, gone: bool)
    requires Inv(a) && hook !in a.seen && hook !in a.left
    ensures Inv(Join(a, key, hook, gone))
  {
    hide Inv, Join;
    if gone { GoneJoinKeepsInv(a, key, hook); } else { LiveJoinKeepsInv(a, key, hook); }
  }

  lemma LeaveKeepsInv(a: Aggregate, key: Key, hook: Hook)
    requires Inv(a) && hook in a.seen && a.seen[hook] == key
    ensures Inv(Leave(a, key, hook))
  {
    var t := Leave(a, key, hook);
    forall e: nat | e < |t.entries|
      ensures EntryOk(t, e)
    {
      assert EntryOk(a, e);
    }
  }

  // ------------------------------------------------------------------ the share table and the seats

  /** The aggregate, the table that hands a request the flight of its key, and the seat chain. A flight is its
      slot in the chain; `sharers` are all requests that were handed it. */
  datatype World = World(a: Aggregate, table: map<Key, nat>, c: Seats.Chain, sharers: seq<set<Hook>>)

  /** One turn of the event loop each. A request joins and shares in one turn, and a flight it starts is queued
      in that turn, unless its lookup answers (`hit`). A controller that fires rejects its queued flight, which
      leaves the table, in the same turn. */
  datatype Event =
    | Request(key: Key, hook: Hook, gone: bool, seat: Seats.Seat, hit: bool)
    | LeaveShare(key: Key, hook: Hook)
    | Begin(i: nat)
    | End(i: nat)

  const Start := World(Nobody, map[], Seats.NoCalls, [])

  function Fired(a: Aggregate): set<nat> {
    set e: nat | e < |a.entries| && a.entries[e].aborted
  }

  /** Each request has a signal of its own, and leaves only what it joined. */
  predicate Enabled(w: World, e: Event) {
    match e
    case Request(_, hook, _, _, _) => hook !in w.a.seen && hook !in w.a.left
    case LeaveShare(key, hook) => hook in w.a.seen && w.a.seen[hook] == key
    case Begin(i) => Seats.Enabled(w.c, Seats.Begin(i))
    case End(i) => Seats.Enabled(w.c, Seats.End(i))
  }

  /** The controller that a join of this key uses. */
  function Used(a: Aggregate, key: Key): nat {
    if Current(a, key).Some? then Current(a, key).value else |a.entries|
  }

  /** A queued flight of this key whose controller has fired gives up its slot and its place in the table. */
  function DropIfFired(w: World, key: Key): World {
    if key in w.table && Seats.Enabled(w.c, Seats.Drop(w.table[key]))
    then w.(c := Seats.Step(w.c, Seats.Drop(w.table[key])), table := w.table - {key}) else w
  }

  /** dedup.share for a request that has joined: the flight of its key, or a new one. */
  function Share(w: World, e: Event, controller: nat): World
    requires e.Request?
  {
    if e.key in w.table && w.table[e.key] < |w.sharers| then
      var i := w.table[e.key];
      w.(sharers := w.sharers[i := w.sharers[i] + {e.hook}])
    else if e.key in w.table || e.hit then w
    else World(w.a, w.table[e.key := |w.c.slots|], Seats.Step(w.c, Seats.Call(e.seat, Some(controller))), w.sharers + [{e.hook}])
  }

  function Refired(w: World, a: Aggregate): World { w.(a := a, c := w.c.(fired := Fired(a))) }

  function Step(w: World, e: Event): World
    requires Enabled(w, e)
  {
    match e
    case Request(key, hook, gone, _, _) => DropIfFired(Share(Refired(w, Join(w.a, key, hook, gone)), e, Used(w.a, key)), key)
    case LeaveShare(key, hook) => DropIfFired(Refired(w, Leave(w.a, key, hook)), key)
    case Begin(i) => w.(c := Seats.Step(w.c, Seats.Begin(i)))
    case End(i) =>
      w.(c := Seats.Step(w.c, Seats.End(i)), table := map k | k in w.table && w.table[k] != i :: w.table[k])
  }

  predicate Possible(w: World, events: seq<Event>)
    decreases |events|
  {
    events == [] || (Enabled(w, events[0]) && Possible(Step(w, events[0]), events[1..]))
  }

  function Run(w: World, events: seq<Event>): World
    requires Possible(w, events)
    decreases |events|
  {
    if events == [] then w else Run(Step(w, events[0]), events[1..])
  }

  // ------------------------------------------------------------------ what every turn keeps

  predicate InTable(w: World, i: nat)
    requires i < |w.c.slots|
  {
    var s := w.c.slots[i].signal;
    s.Some? && s.value < |w.a.entries| && w.a.entries[s.value].key in w.table && w.table[w.a.entries[s.value].key] == i
  }

  /** The live sharers of a queued flight wait on its controller; of a dropped one there are none. */
  predicate FlightOk(w: World, i: nat)
    requires i < |w.c.slots| && i < |w.sharers|
  {
    match w.c.slots[i].status
    case Queued => InTable(w, i) && w.sharers[i] <= w.a.entries[w.c.slots[i].signal.value].joined + w.a.left
    case Running => InTable(w, i)
    case Finished => true
    case Dropped => w.sharers[i] <= w.a.left
  }

  /** A queued flight's controller has not fired. */
  predicate Waits(w: World, i: nat)
    requires i < |w.c.slots|
  {
    w.c.slots[i].status == Seats.Queued ==> w.c.slots[i].signal.Some? && w.c.slots[i].signal.value !in Fired(w.a)
  }

  predicate Holds(w: World, k: Key) {
    k in w.table && w.table[k] < |w.c.slots| && InTable(w, w.table[k]) && w.a.entries[w.c.slots[w.table[k]].signal.value].key == k
    && w.c.slots[w.table[k]].status in {Seats.Queued, Seats.Running}
  }

  ghost predicate Base(w: World) {
    && Inv(w.a) && Seats.Inv(w.c) && w.c.fired == Fired(w.a) && |w.sharers| == |w.c.slots|
    && (forall i: nat :: i < |w.c.slots| ==> FlightOk(w, i))
    && (forall k :: k in w.table ==> Holds(w, k))
  }

  /** As between turns; and in the middle of one, when the controller of this key may just have fired. */
  ghost predicate WorldOk(w: World) { Base(w) && forall i: nat :: i < |w.c.slots| ==> Waits(w, i) }

  ghost predicate MidTurn(w: World, key: Key) {
    Base(w) && forall i: nat :: i < |w.c.slots| && !(key in w.table && w.table[key] == i) ==> Waits(w, i)
  }

  /** Controllers keep their keys, who joined them, and having fired; whoever left stays so. */
  predicate Extends(a: Aggregate, t: Aggregate) {
    && |a.entries| <= |t.entries| && a.left <= t.left
    && forall e: nat :: e < |a.entries| ==> t.entries[e].key == a.entries[e].key && a.entries[e].joined <= t.entries[e].joined
  }

  lemma JoinExtends(a: Aggregate, key: Key, hook: Hook, gone: bool)
    requires Inv(a) && hook !in a.seen && hook !in a.left
    ensures var t := Join(a, key, hook, gone);
            && Extends(a, t) && (forall e: nat :: e < |a.entries| ==> t.entries[e].aborted == a.entries[e].aborted)
            && Used(a, key) < |t.entries| && t.entries[Used(a, key)].key == key
            && (hook in t.entries[Used(a, key)].joined || hook in t.left)
  {
    KeysAreLive(a);
    if Current(a, key).Some? { assert EntryOk(a, a.keys[key]); }
  }

  lemma LeaveExtends(a: Aggregate, key: Key, hook: Hook)
    requires Inv(a)
    ensures var t := Leave(a, key, hook);
            && Extends(a, t) && |t.entries| == |a.entries|
            && forall e: nat :: e < |a.entries| && t.entries[e].aborted && !a.entries[e].aborted ==> a.entries[e].key == key
  {
  }

  lemma FiredDoesNotMatter(c: Seats.Chain, fired: set<Seats.Signal>)
    requires Seats.Inv(c)
    ensures Seats.Inv(c.(fired := fired))
  {
    Seats.LinkedSays(c, c.(fired := fired));
  }

  lemma RefiredKeepsBase(w: World, a: Aggregate)
    requires Base(w) && Inv(a) && Extends(w.a, a)
    ensures Base(Refired(w, a))
  {
    hide Seats.Inv, Inv;
    FiredDoesNotMatter(w.c, Fired(a));
    var t := Refired(w, a);
    forall i: nat | i < |t.c.slots|
      ensures FlightOk(t, i)
    {
      assert FlightOk(w, i);
    }
    forall k | k in t.table
      ensures Holds(t, k)
    {
      assert Holds(w, k);
    }
  }

  /** A queued flight's controller is the one that a join of its key uses. */
  lemma QueuedIsUsed(w: World, key: Key)
    requires WorldOk(w) && key in w.table && w.c.slots[w.table[key]].status == Seats.Queued
    ensures w.c.slots[w.table[key]].signal == Some(Used(w.a, key))
  {
    assert Holds(w, key) && Waits(w, w.table[key]);
    assert EntryOk(w.a, w.c.slots[w.table[key]].signal.value);
  }

  lemma ShareOldKeeps(w: World, e: Event, controller: nat)
    requires e.Request? && MidTurn(w, e.key) && e.key in w.table
    requires w.c.slots[w.table[e.key]].status == Seats.Queued ==> w.c.slots[w.table[e.key]].signal == Some(controller)
    requires controller < |w.a.entries| && (e.hook in w.a.entries[controller].joined || e.hook in w.a.left)
    ensures MidTurn(Share(w, e, controller), e.key)
  {
    hide Seats.Inv, Inv;
    assert Holds(w, e.key);
    var t := Share(w, e, controller);
    forall i: nat | i < |t.c.slots|
      ensures FlightOk(t, i) && (i != w.table[e.key] ==> Waits(t, i))
    {
      assert FlightOk(w, i) && (i != w.table[e.key] ==> Waits(w, i));
    }
    forall k | k in t.table
      ensures Holds(t, k)
    {
      assert Holds(w, k);
    }
  }

  lemma ShareNewKeeps(w: World, e: Event, controller: nat)
    requires e.Request? && MidTurn(w, e.key) && e.key !in w.table && !e.hit
    requires controller < |w.a.entries| && w.a.entries[controller].key == e.key
    requires e.hook in w.a.entries[controller].joined || e.hook in w.a.left
    ensures MidTurn(Share(w, e, controller), e.key)
  {
    hide Seats.Inv, Inv;
    Seats.StepKeepsInv(w.c, Seats.Call(e.seat, Some(controller)));
    var t := Share(w, e, controller);
    forall i: nat | i < |t.c.slots|
      ensures FlightOk(t, i) && (i < |w.c.slots| ==> Waits(t, i))
    {
      if i < |w.c.slots| { assert FlightOk(w, i) && Waits(w, i); }
    }
    forall k | k in t.table
      ensures Holds(t, k)
    {
      if k != e.key { assert Holds(w, k); }
    }
  }

  lemma DropKeepsOk(w: World, key: Key)
    requires MidTurn(w, key)
    ensures WorldOk(DropIfFired(w, key))
  {
    hide Seats.Inv;
    if key in w.table && Seats.Enabled(w.c, Seats.Drop(w.table[key])) {
      var i := w.table[key];
      Seats.StepKeepsInv(w.c, Seats.Drop(i));
      AllJoinedLeft(w, key);
      hide Inv;
      var t := DropIfFired(w, key);
      forall j: nat | j < |t.c.slots|
        ensures FlightOk(t, j) && Waits(t, j)
      {
        assert FlightOk(w, j) && (j != i ==> Waits(w, j));
      }
      forall k | k in t.table
        ensures Holds(t, k)
      {
        assert Holds(w, k);
      }
    } else if key in w.table {
      assert Holds(w, key) && FlightOk(w, w.table[key]);
    }
  }

  /** The sharers of a flight whose controller has fired have all left. */
  lemma AllJoinedLeft(w: World, key: Key)
    requires Base(w) && key in w.table && Seats.Enabled(w.c, Seats.Drop(w.table[key]))
    ensures w.sharers[w.table[key]] <= w.a.left
  {
    var i := w.table[key];
    assert FlightOk(w, i);
    var e := w.c.slots[i].signal.value;
    assert EntryOk(w.a, e);
    NoneWaits(w.a.entries[e].joined, w.a.left);
  }

  lemma RequestKeepsOk(w: World, e: Event)
    requires WorldOk(w) && Enabled(w, e) && e.Request?
    ensures WorldOk(Step(w, e))
  {
    JoinKeepsInv(w.a, e.key, e.hook, e.gone);
    JoinExtends(w.a, e.key, e.hook, e.gone);
    if e.key in w.table && w.c.slots[w.table[e.key]].status == Seats.Queued { QueuedIsUsed(w, e.key); }
    hide Seats.Inv, Inv, Join, Extends, DropIfFired;
    var a := Join(w.a, e.key, e.hook, e.gone);
    var m := Refired(w, a);
    RefiredKeepsBase(w, a);
    forall i: nat | i < |w.c.slots|
      ensures Waits(m, i)
    {
      assert Waits(w, i) && FlightOk(w, i);
    }
    if e.key in w.table {
      assert Holds(w, e.key);
      ShareOldKeeps(m, e, Used(w.a, e.key));
    } else if !e.hit {
      ShareNewKeeps(m, e, Used(w.a, e.key));
    }
    DropKeepsOk(Share(m, e, Used(w.a, e.key)), e.key);
  }

  lemma LeaveKeepsOk(w: World, key: Key, hook: Hook)
    requires WorldOk(w) && Enabled(w, LeaveShare(key, hook))
    ensures WorldOk(Step(w, LeaveShare(key, hook)))
  {
    LeaveKeepsInv(w.a, key, hook);
    LeaveExtends(w.a, key, hook);
    hide Seats.Inv, Inv, Leave, DropIfFired;
    var a := Leave(w.a, key, hook);
    var m := Refired(w, a);
    RefiredKeepsBase(w, a);
    forall i: nat | i < |w.c.slots| && !(key in w.table && w.table[key] == i)
      ensures Waits(m, i)
    {
      assert Waits(w, i) && FlightOk(w, i);
    }
    DropKeepsOk(m, key);
  }

  lemma BeginKeepsOk(w: World, i: nat)
    requires WorldOk(w) && Enabled(w, Begin(i))
    ensures WorldOk(Step(w, Begin(i)))
  {
    hide Seats.Inv, Inv;
    Seats.StepKeepsInv(w.c, Seats.Begin(i));
    var t := Step(w, Begin(i));
    forall j: nat | j < |t.c.slots|
      ensures FlightOk(t, j) && Waits(t, j)
    {
      assert FlightOk(w, j) && Waits(w, j);
    }
    forall k | k in t.table
      ensures Holds(t, k)
    {
      assert Holds(w, k);
    }
  }

  lemma EndKeepsOk(w: World, i: nat)
    requires WorldOk(w) && Enabled(w, End(i))
    ensures WorldOk(Step(w, End(i)))
  {
    hide Seats.Inv, Inv;
    Seats.StepKeepsInv(w.c, Seats.End(i));
    var t := Step(w, End(i));
    forall j: nat | j < |t.c.slots|
      ensures FlightOk(t, j) && Waits(t, j)
    {
      assert FlightOk(w, j) && Waits(w, j);
    }
    forall k | k in t.table
      ensures Holds(t, k)
    {
      assert Holds(w, k);
    }
  }

  lemma StepKeepsOk(w: World, e: Event)
    requires WorldOk(w) && Enabled(w, e)
    ensures WorldOk(Step(w, e))
  {
    hide WorldOk, Step;
    match e
    case Request(_, _, _, _, _) => RequestKeepsOk(w, e);
    case LeaveShare(key, hook) => LeaveKeepsOk(w, key, hook);
    case Begin(i) => BeginKeepsOk(w, i);
    case End(i) => EndKeepsOk(w, i);
  }

  lemma {:induction false} RunKeepsOk(w: World, events: seq<Event>)
    requires WorldOk(w) && Possible(w, events)
    ensures WorldOk(Run(w, events))
    decreases |events|
  {
    hide WorldOk, Enabled;
    if events != [] {
      StepKeepsOk(w, events[0]);
      RunKeepsOk(Step(w, events[0]), events[1..]);
    }
  }

  // ------------------------------------------------------------------ the main results

  /** The requests that left in these turns, or had aborted when they came. */
  function Gone(events: seq<Event>): set<Hook> {
    set e | e in events && (e.LeaveShare? || (e.Request? && e.gone)) :: e.hook
  }

  lemma {:induction false} LeftAreGone(w: World, events: seq<Event>)
    requires Possible(w, events)
    ensures Run(w, events).a.left == w.a.left + Gone(events)
    decreases |events|
  {
    if events != [] {
      var e, rest := events[0], events[1..];
      assert events == [e] + rest;
      StepAddsGone(w, e);
      LeftAreGone(Step(w, e), rest);
      assert Gone(events) == Gone([e]) + Gone(rest);
    }
  }

  lemma StepAddsGone(w: World, e: Event)
    requires Enabled(w, e)
    ensures Step(w, e).a.left == w.a.left + Gone([e])
  {
    assert [e][0] == e;
    if e.LeaveShare? || (e.Request? && e.gone) {
      assert Gone([e]) == {e.hook};
    } else {
      assert Gone([e]) == {};
    }
  }

  /** The flight that a request was handed in the step from `w` to `t`. */
  predicate HandedIn(w: World, e: Event, t: World)
    requires e.Request?
  {
    var n := |w.sharers|;
    && (e.key in w.table ==> w.table[e.key] < n && t.sharers == w.sharers[w.table[e.key] := w.sharers[w.table[e.key]] + {e.hook}])
    && (e.key !in w.table && e.hit ==> t.sharers == w.sharers)
    && (e.key !in w.table && !e.hit ==> t.sharers == w.sharers + [{e.hook}] && |t.c.slots| == n + 1 && t.c.slots[n].seat == e.seat)
    && (e.key !in w.table && !e.hit && !e.gone ==> e.key in t.table && t.table[e.key] == n)
  }

  /** A request is handed the flight of its key, or starts one on its seat unless its lookup answers; the flight
      it starts alive is in the table. The other flights keep their sharers. */
  lemma RequestIsHandedAFlight(events: seq<Event>, e: Event)
    requires Possible(Start, events) && Enabled(Run(Start, events), e) && e.Request?
    ensures HandedIn(Run(Start, events), e, Step(Run(Start, events), e))
  {
    RunKeepsOk(Start, events);
    var w := Run(Start, events);
    if !e.gone { LiveIsUsed(w.a, e.key, e.hook); }
    assert e.key in w.table ==> Holds(w, e.key);
    HandsOut(w, e);
  }

  lemma HandsOut(w: World, e: Event)
    requires Enabled(w, e) && e.Request? && |w.sharers| == |w.c.slots|
    requires e.key in w.table ==> w.table[e.key] < |w.sharers|
    requires !e.gone ==> Used(w.a, e.key) !in Fired(Join(w.a, e.key, e.hook, false))
    ensures HandedIn(w, e, Step(w, e))
  {
    hide Join, Used, Fired;
  }

  lemma LiveIsUsed(a: Aggregate, key: Key, hook: Hook)
    requires Inv(a) && hook !in a.seen && hook !in a.left
    ensures var t := Join(a, key, hook, false); Used(a, key) < |t.entries| && !t.entries[Used(a, key)].aborted
  {
    KeysAreLive(a);
    if Current(a, key).Some? { assert EntryOk(a, a.keys[key]); }
  }

  /** A flight that may begin runs until it ends; then it is no longer shared, its seat is free for the next one,
      and every other flight is as it was. */
  lemma FlightRunsToItsEnd(events: seq<Event>, i: nat)
    requires Possible(Start, events) && Enabled(Run(Start, events), Begin(i))
    ensures var w := Run(Start, events);
            var t := Step(w, Begin(i));
            && t.c.slots[i].status == Seats.Running && t.c.starts == w.c.starts + [i] && t.table == w.table && Enabled(t, End(i))
            && var u := Step(t, End(i));
               && u.c.slots == w.c.slots[i := w.c.slots[i].(status := Seats.Finished)] && Seats.Open(u.c.slots, i)
               && (forall k :: k in u.table <==> k in w.table && w.table[k] != i) && (forall k :: k in u.table ==> u.table[k] == w.table[k])
               && u.a == w.a && u.sharers == w.sharers
  {
    RunKeepsOk(Start, events);
    var w := Run(Start, events);
    EndedIsOpen(w.c, i);
    Seats.BeginsAndEnds(w.c, i);
    hide WorldOk, Run, Possible, Seats.Open, Seats.Step, Seats.PrevDone, Seats.IsAborted;
  }

  lemma EndedIsOpen(c: Seats.Chain, i: nat)
    requires Seats.Inv(c) && Seats.Enabled(c, Seats.Begin(i))
    ensures Seats.Open(c.slots[i := c.slots[i].(status := Seats.Finished)], i)
  {
    var t := Seats.Step(c, Seats.Begin(i));
    var u := Seats.Step(t, Seats.End(i));
    Seats.StepKeepsInv(c, Seats.Begin(i));
    Seats.StepKeepsInv(t, Seats.End(i));
    Seats.AllBeforeAreOver(c, i);
    assert u.slots == c.slots[i := c.slots[i].(status := Seats.Finished)];
    Seats.AllOverMeansOpen(u, i);
  }

  /** In every interleaving: a shared signal has fired exactly when every request that joined it alive has left;
      a flight is dropped only after every request that was handed it has left, whichever started it; and the
      live ones of a queued flight all wait on its one signal. */
  lemma DroppedOnlyWhenAllLeft(events: seq<Event>)
    requires Possible(Start, events)
    ensures var w := Run(Start, events);
            var left := Gone(events);
            && (forall e: nat :: e < |w.a.entries| ==> (w.a.entries[e].aborted <==> w.a.entries[e].joined <= left))
            && |w.sharers| == |w.c.slots|
            && (forall i: nat :: i < |w.c.slots| && w.c.slots[i].status == Seats.Dropped ==> w.sharers[i] <= left)
            && (forall i: nat :: i < |w.c.slots| && w.c.slots[i].status == Seats.Queued ==>
                  var s := w.c.slots[i].signal;
                  s.Some? && s.value < |w.a.entries| && !w.a.entries[s.value].aborted && w.sharers[i] - left <= w.a.entries[s.value].waiters)
  {
    RunKeepsOk(Start, events);
    LeftAreGone(Start, events);
    var w := Run(Start, events);
    forall e: nat | e < |w.a.entries|
      ensures w.a.entries[e].aborted <==> w.a.entries[e].joined <= w.a.left
    {
      assert EntryOk(w.a, e);
      NoneWaits(w.a.entries[e].joined, w.a.left);
    }
    forall i: nat | i < |w.c.slots| && w.c.slots[i].status == Seats.Queued
      ensures var s := w.c.slots[i].signal;
              s.Some? && s.value < |w.a.entries| && !w.a.entries[s.value].aborted && w.sharers[i] - w.a.left <= w.a.entries[s.value].waiters
    {
      assert FlightOk(w, i) && Waits(w, i);
      assert EntryOk(w.a, w.c.slots[i].signal.value);
    }
    forall i: nat | i < |w.c.slots| && w.c.slots[i].status == Seats.Dropped
      ensures w.sharers[i] <= w.a.left
    {
      assert FlightOk(w, i);
    }
  }

  lemma NoneWaits(joined: set<Hook>, left: set<Hook>)
    ensures joined - left == {} <==> joined <= left
  {
    if joined - left == {} {
      forall h | h in joined
        ensures h in left
      {
        assert h !in joined - left;
      }
    }
  }

  /** A request that joins alive gets a signal that has not fired, whatever happened to its key before. */
  lemma LiveJoinGetsLiveSignal(events: seq<Event>, key: Key, hook: Hook)
    requires Possible(Start, events) && hook !in Run(Start, events).a.seen && hook !in Run(Start, events).a.left
    ensures var a := Join(Run(Start, events).a, key, hook, false);
            key in a.keys && a.keys[key] < |a.entries| && !a.entries[a.keys[key]].aborted && hook in a.entries[a.keys[key]].waiters
  {
    RunKeepsOk(Start, events);
    var w := Run(Start, events);
    if Current(w.a, key).Some? { assert EntryOk(w.a, w.a.keys[key]); }
  }

  // ------------------------------------------------------------------ the aggregate object

  class ShareWaiterAggregate {
    var keys: map<Key, nat>
    var entries: seq<Entry>
    ghost var left: set<Hook>
    ghost var seen: map<Hook, Key>

    constructor ()
      ensures Now() == Nobody
    {
      keys, entries, left, seen := map[], [], {}, map[];
    }

    ghost function Now(): Aggregate
      reads this
    {
      Aggregate(keys, entries, left, seen)
    }

    /** Returns the number of the controller whose signal the request shares. */
    method JoinKey(key: Key, hook: Hook, gone: bool) returns (e: nat)
      requires Inv(Now())
      modifies this
      ensures Now() == Join(old(Now()), key, hook, gone)
      ensures e < |entries| && entries[e].key == key && (!gone ==> hook in entries[e].waiters && !entries[e].aborted)
    {
      seen := seen[hook := key];
      if key !in keys || entries[keys[key]].aborted {
        e := |entries|;
        entries := entries + [Entry({}, {}, false, {}, key)];
        keys := keys[key := e];
      } else {
        e := keys[key];
      }
      var x := entries[e];
      if gone {
        left := left + {hook};
        if x.waiters == {} && !x.aborted {
          entries := entries[e := x.(aborted := true)];
          keys := keys - {key};
        }
        return;
      }
      entries := entries[e := Entry(x.waiters + {hook}, x.listeners + {hook}, x.aborted, x.joined + {hook}, x.key)];
    }

    method LeaveKey(key: Key, hook: Hook)
      requires Inv(Now())
      modifies this
      ensures Now() == Leave(old(Now()), key, hook)
    {
      left := left + {hook};
      if key !in keys { return; }
      var e := keys[key];
      var x := entries[e].(listeners := entries[e].listeners - {hook});
      entries := entries[e := x];
      if hook !in x.waiters { return; }
      x := x.(waiters := x.waiters - {hook});
      if x.waiters == {} {
        x := x.(aborted := true);
        keys := keys - {key};
      }
      entries := entries[e := x];
    }
  }
}
