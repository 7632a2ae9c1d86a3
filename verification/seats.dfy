/** The per-seat lock chain (serialize.ts). Each call hangs its slot behind the last one of its seat; a
    call whose signal fires while it queues gives its slot up without running. */
module Seats {
  import opened Common

  type Seat = string

  type Signal = nat

  datatype Status = Queued | Running | Finished | Dropped

  /** `prev` is the slot that was last in the seat's chain when this call was made. */
  datatype Slot = Slot(seat: Seat, prev: Option<nat>, signal: Option<Signal>, status: Status)

  /** `locks` maps a seat to its last slot; `fired` are the signals that have aborted; `starts` lists the
      slots whose work was started, in order. */
  datatype Chain = Chain(slots: seq<Slot>, locks: map<Seat, nat>, fired: set<Signal>, starts: seq<nat>)

  const NoCalls := Chain([], map[], {}, [])

  /** releaseSlot was called. */
  predicate Released(s: Slot) { s.status == Finished || s.status == Dropped }

  /** The promise in `locks` made by slot `i` has resolved: the one before it has, and its own slot is
      released. */
  predicate Open(slots: seq<Slot>, i: nat)
    decreases i
  {
    i < |slots| && Released(slots[i]) && (slots[i].prev.Some? ==> slots[i].prev.value < i && Open(slots, slots[i].prev.value))
  }

  predicate PrevDone(slots: seq<Slot>, i: nat)
    requires i < |slots|
  {
    slots[i].prev.Some? ==> Open(slots, slots[i].prev.value)
  }

  predicate IsAborted(c: Chain, i: nat)
    requires i < |c.slots|
  {
    c.slots[i].signal.Some? && c.slots[i].signal.value in c.fired
  }

  datatype Event = Call(seat: Seat, signal: Option<Signal>) | Fire(source: Signal) | Begin(i: nat) | Drop(i: nat) | End(i: nat)

  /** A work begins only after the lock before it has resolved and its signal has not fired; a queued call
      is dropped only after its signal has fired; nothing interrupts a running work. */
  predicate Enabled(c: Chain, e: Event) {
    match e
    case Begin(i) => i < |c.slots| && c.slots[i].status == Queued && PrevDone(c.slots, i) && !IsAborted(c, i)
    case Drop(i) => i < |c.slots| && c.slots[i].status == Queued && IsAborted(c, i)
    case End(i) => i < |c.slots| && c.slots[i].status == Running
    case _ => true
  }

  function SetStatus(c: Chain, i: nat, status: Status): Chain
    requires i < |c.slots|
  {
    c.(slots := c.slots[i := c.slots[i].(status := status)])
  }

  function Step(c: Chain, e: Event): Chain
    requires Enabled(c, e)
  {
    match e
    case Call(seat, signal) =>
      var prev := if seat in c.locks then Some(c.locks[seat]) else None;
      c.(slots := c.slots + [Slot(seat, prev, signal, Queued)], locks := c.locks[seat := |c.slots|])
    case Fire(signal) => c.(fired := c.fired + {signal})
    case Begin(i) => SetStatus(c, i, Running).(starts := c.starts + [i])
    case Drop(i) => SetStatus(c, i, Dropped)
    case End(i) => SetStatus(c, i, Finished)
  }

  predicate Possible(c: Chain, events: seq<Event>)
    decreases |events|
  {
    events == [] || (Enabled(c, events[0]) && Possible(Step(c, events[0]), events[1..]))
  }

  function Run(c: Chain, events: seq<Event>): Chain
    requires Possible(c, events)
    decreases |events|
  {
    if events == [] then c else Run(Step(c, events[0]), events[1..])
  }

  // ------------------------------------------------------------------ what every step keeps

  predicate Started(s: Slot) { s.status == Running || s.status == Finished }

  /** Each slot hangs behind the last earlier slot of its seat. */
  predicate Linked(c: Chain) {
    && (forall i: nat :: 0 <= i < |c.slots| ==> IsLink(c.slots, i))
    && (forall seat :: seat in c.locks ==> c.locks[seat] < |c.slots| && c.slots[c.locks[seat]].seat == seat)
    && (forall i: nat :: 0 <= i < |c.slots| ==> c.slots[i].seat in c.locks && i <= c.locks[c.slots[i].seat])
  }

  predicate IsLink(slots: seq<Slot>, i: nat)
    requires i < |slots|
  {
    match slots[i].prev
    case None => forall j: nat :: 0 <= j < i ==> slots[j].seat != slots[i].seat
    case Some(p) => p < i && slots[p].seat == slots[i].seat && forall j: nat :: p < j < i ==> slots[j].seat != slots[i].seat
  }

  predicate SameSeat(slots: seq<Slot>, i: nat, j: nat) {
    i < |slots| && j < |slots| && slots[i].seat == slots[j].seat
  }

  predicate Behind(slots: seq<Slot>, i: nat, j: nat) {
    i < j < |slots| && slots[i].seat == slots[j].seat
  }

  /** When a work has started, every earlier call of its seat is over. */
  ghost predicate InOrder(slots: seq<Slot>) {
    forall i: nat, j: nat :: Behind(slots, i, j) && Started(slots[j]) ==> Released(slots[i])
  }

  ghost predicate LoggedInOrder(c: Chain) {
    && (forall k :: 0 <= k < |c.starts| ==> c.starts[k] < |c.slots| && Started(c.slots[c.starts[k]]))
    && (forall i: nat :: 0 <= i < |c.slots| && Started(c.slots[i]) ==> i in c.starts)
    && (forall k, l :: 0 <= k < l < |c.starts| && SameSeat(c.slots, c.starts[k], c.starts[l]) ==> c.starts[k] < c.starts[l])
  }

  ghost predicate Inv(c: Chain) {
    Linked(c) && InOrder(c.slots) && LoggedInOrder(c)
  }

  /** An open lock means that every call of the seat up to it is over. */
  lemma {:induction false} OpenMeansAllOver(c: Chain, p: nat, i: nat)
    requires Linked(c) && p < |c.slots| && Open(c.slots, p) && i <= p && c.slots[i].seat == c.slots[p].seat
    ensures Released(c.slots[i])
    decreases p
  {
    if i < p {
      assert IsLink(c.slots, p);
      OpenMeansAllOver(c, c.slots[p].prev.value, i);
    }
  }

  /** And the other way round: when they all are over, it is open. */
  lemma {:induction false} AllOverMeansOpen(c: Chain, p: nat)
    requires Linked(c) && p < |c.slots|
    requires forall i: nat :: 0 <= i <= p && c.slots[i].seat == c.slots[p].seat ==> Released(c.slots[i])
    ensures Open(c.slots, p)
    decreases p
  {
    assert IsLink(c.slots, p);
    if c.slots[p].prev.Some? { AllOverMeansOpen(c, c.slots[p].prev.value); }
  }

  lemma CallKeepsInv(c: Chain, seat: Seat, signal: Option<Signal>)
    requires Inv(c)
    ensures Inv(Step(c, Call(seat, signal)))
  {
    var t := Step(c, Call(seat, signal));
    forall i: nat | 0 <= i < |t.slots|
      ensures IsLink(t.slots, i)
    {
      if i < |c.slots| { assert IsLink(c.slots, i); }
    }
    forall i: nat, j: nat | Behind(t.slots, i, j) && Started(t.slots[j])
      ensures Released(t.slots[i])
    {
      assert Behind(c.slots, i, j);
    }
  }

  lemma LinksStay(c: Chain, i: nat, status: Status)
    requires Linked(c) && i < |c.slots|
    ensures Linked(SetStatus(c, i, status))
  {
    var t := SetStatus(c, i, status);
    forall j: nat | 0 <= j < |t.slots|
      ensures IsLink(t.slots, j)
    {
      assert IsLink(c.slots, j);
    }
  }

  lemma AllBeforeAreOver(c: Chain, i: nat)
    requires Linked(c) && Enabled(c, Begin(i))
    ensures forall h: nat :: Behind(c.slots, h, i) ==> Released(c.slots[h])
  {
    forall h: nat | Behind(c.slots, h, i)
      ensures Released(c.slots[h])
    {
      assert IsLink(c.slots, i);
      OpenMeansAllOver(c, c.slots[i].prev.value, h);
    }
  }

  lemma BeginKeepsOrder(c: Chain, i: nat)
    requires Linked(c) && InOrder(c.slots) && Enabled(c, Begin(i))
    ensures InOrder(SetStatus(c, i, Running).slots)
  {
    AllBeforeAreOver(c, i);
    var t := SetStatus(c, i, Running);
    forall h: nat, j: nat | Behind(t.slots, h, j) && Started(t.slots[j])
      ensures Released(t.slots[h])
    {
      assert Behind(c.slots, h, j);
    }
  }

  lemma BeginKeepsLog(c: Chain, i: nat)
    requires InOrder(c.slots) && LoggedInOrder(c) && Enabled(c, Begin(i))
    ensures LoggedInOrder(Step(c, Begin(i)))
  {
    var t := Step(c, Begin(i));
    forall k: nat | k < |c.starts| && SameSeat(t.slots, c.starts[k], i)
      ensures c.starts[k] < i
    {
      assert Started(c.slots[c.starts[k]]);
      if c.starts[k] > i { assert Behind(c.slots, i, c.starts[k]); }
    }
    assert t.starts[|c.starts|] == i;
    forall j: nat | j < |t.slots| && Started(t.slots[j])
      ensures j in t.starts
    {
      assert j != i ==> j in c.starts;
    }
  }

  lemma BeginKeepsInv(c: Chain, i: nat)
    requires Inv(c) && Enabled(c, Begin(i))
    ensures Inv(Step(c, Begin(i)))
  {
    hide Linked, InOrder, LoggedInOrder;
    LinksStay(c, i, Running);
    LinkedSays(SetStatus(c, i, Running), Step(c, Begin(i)));
    BeginKeepsOrder(c, i);
    BeginKeepsLog(c, i);
  }

  lemma LinkedSays(c: Chain, t: Chain)
    requires Linked(c) && c.slots == t.slots && c.locks == t.locks
    ensures Linked(t)
  {
  }

  predicate MayEnd(slots: seq<Slot>, i: nat, status: Status) {
    i < |slots| && ((slots[i].status == Queued && status == Dropped) || (slots[i].status == Running && status == Finished))
  }

  lemma OverKeepsOrder(c: Chain, i: nat, status: Status)
    requires InOrder(c.slots) && MayEnd(c.slots, i, status)
    ensures InOrder(SetStatus(c, i, status).slots)
  {
    var t := SetStatus(c, i, status);
    forall h: nat, j: nat | Behind(t.slots, h, j) && Started(t.slots[j])
      ensures Released(t.slots[h])
    {
      assert Behind(c.slots, h, j);
    }
  }

  lemma OverKeepsLog(c: Chain, i: nat, status: Status)
    requires LoggedInOrder(c) && MayEnd(c.slots, i, status)
    ensures LoggedInOrder(SetStatus(c, i, status))
  {
  }

  lemma OverKeepsInv(c: Chain, i: nat, status: Status)
    requires Inv(c) && MayEnd(c.slots, i, status)
    ensures Inv(SetStatus(c, i, status))
  {
    hide Linked, InOrder, LoggedInOrder;
    LinksStay(c, i, status);
    OverKeepsOrder(c, i, status);
    OverKeepsLog(c, i, status);
  }

  lemma StepKeepsInv(c: Chain, e: Event)
    requires Inv(c) && Enabled(c, e)
    ensures Inv(Step(c, e))
  {
    match e
    case Call(seat, signal) => CallKeepsInv(c, seat, signal);
    case Fire(_) => {}
    case Begin(i) => BeginKeepsInv(c, i);
    case Drop(i) => OverKeepsInv(c, i, Dropped);
    case End(i) => OverKeepsInv(c, i, Finished);
  }

  lemma {:induction false} RunKeepsInv(c: Chain, events: seq<Event>)
    requires Inv(c) && Possible(c, events)
    ensures Inv(Run(c, events))
    decreases |events|
  {
    hide Inv, Enabled;
    if events != [] {
      StepKeepsInv(c, events[0]);
      RunKeepsInv(Step(c, events[0]), events[1..]);
    }
  }

  // ------------------------------------------------------------------ the main results

  /** In every interleaving: at most one work of a seat runs at a time; works of a seat start in call order,
      and when one starts every earlier call of the seat has finished or was dropped, so that a dropped
      call lets nobody overtake a running work; and a dropped call never started. */
  lemma OneAtATimeInCallOrder(events: seq<Event>)
    requires Possible(NoCalls, events)
    ensures var c := Run(NoCalls, events);
            && (forall i: nat, j: nat :: Behind(c.slots, i, j) ==> !(c.slots[i].status == Running && c.slots[j].status == Running))
            && (forall i: nat, j: nat :: Behind(c.slots, i, j) && Started(c.slots[j]) ==> Released(c.slots[i]))
            && (forall k, l :: 0 <= k < l < |c.starts| && SameSeat(c.slots, c.starts[k], c.starts[l]) ==> c.starts[k] < c.starts[l])
            && (forall i: nat :: 0 <= i < |c.slots| && c.slots[i].status == Dropped ==> i !in c.starts)
  {
    RunKeepsInv(NoCalls, events);
  }

  /** A signal has fired exactly when it was fired in the run. */
  lemma {:induction false} FiredExactly(c: Chain, events: seq<Event>, signal: Signal)
    requires Possible(c, events)
    ensures signal in Run(c, events).fired <==> signal in c.fired || Fire(signal) in events
    decreases |events|
  {
    if events != [] {
      FiredExactly(Step(c, events[0]), events[1..], signal);
      assert Fire(signal) in events <==> events[0] == Fire(signal) || Fire(signal) in events[1..];
    }
  }

  predicate NeverRan(c: Chain, i: nat, signal: Signal) {
    i < |c.slots| && c.slots[i].signal == Some(signal) && signal in c.fired && c.slots[i].status in {Queued, Dropped}
  }

  lemma {:induction false} NeverRanStays(c: Chain, events: seq<Event>, i: nat, signal: Signal)
    requires Possible(c, events) && NeverRan(c, i, signal)
    ensures NeverRan(Run(c, events), i, signal)
    decreases |events|
  {
    if events != [] {
      assert NeverRan(Step(c, events[0]), i, signal);
      NeverRanStays(Step(c, events[0]), events[1..], i, signal);
    }
  }

  /** A call whose signal fires while it queues never starts its work, in any later run; and no other call is
      ever dropped. */
  lemma OnlyAbortedCallsAreDropped(before: seq<Event>, signal: Signal, after: seq<Event>, i: nat)
    requires Possible(NoCalls, before) && Possible(Step(Run(NoCalls, before), Fire(signal)), after)
    ensures var c := Run(NoCalls, before);
            var t := Run(Step(c, Fire(signal)), after);
            && (i < |c.slots| && c.slots[i].signal == Some(signal) && c.slots[i].status == Queued ==>
                  i < |t.slots| && t.slots[i].status in {Queued, Dropped} && i !in t.starts)
            && (i < |c.slots| && c.slots[i].status == Dropped ==> c.slots[i].signal.Some? && Fire(c.slots[i].signal.value) in before)
  {
    var c := Run(NoCalls, before);
    var d := Step(c, Fire(signal));
    RunKeepsInv(NoCalls, before);
    StepKeepsInv(c, Fire(signal));
    RunKeepsInv(d, after);
    if i < |c.slots| && c.slots[i].signal == Some(signal) && c.slots[i].status == Queued { NeverRanStays(d, after, i, signal); }
    DroppedWereFired(NoCalls, before);
    if i < |c.slots| && c.slots[i].status == Dropped { FiredExactly(NoCalls, before, c.slots[i].signal.value); }
  }

  predicate AllDroppedFired(c: Chain) {
    forall i: nat :: i < |c.slots| && c.slots[i].status == Dropped ==> IsAborted(c, i)
  }

  lemma {:induction false} DroppedWereFired(c: Chain, events: seq<Event>)
    requires Possible(c, events) && AllDroppedFired(c)
    ensures AllDroppedFired(Run(c, events))
    decreases |events|
  {
    if events != [] { DroppedWereFired(Step(c, events[0]), events[1..]); }
  }

  /** No queue is stuck: if no work of the seat runs, its first queued call can begin or be dropped, whatever
      other seats do. */
  lemma FirstInLineMayGo(events: seq<Event>, i: nat)
    requires Possible(NoCalls, events)
    ensures var c := Run(NoCalls, events);
            i < |c.slots| && c.slots[i].status == Queued
            && (forall h: nat :: 0 <= h < |c.slots| && c.slots[h].seat == c.slots[i].seat ==> c.slots[h].status != Running)
            && (forall h: nat :: 0 <= h < i && c.slots[h].seat == c.slots[i].seat ==> c.slots[h].status != Queued)
            ==> Enabled(c, Begin(i)) || Enabled(c, Drop(i))
  {
    RunKeepsInv(NoCalls, events);
    var c := Run(NoCalls, events);
    if IsNext(c, i) && (forall h: nat :: SameSeat(c.slots, h, i) ==> c.slots[h].status != Running) { NextMayGo(c, i); }
  }

  /** The first of its seat that is queued. */
  ghost predicate IsNext(c: Chain, i: nat) {
    i < |c.slots| && c.slots[i].status == Queued && forall h: nat :: Behind(c.slots, h, i) ==> c.slots[h].status != Queued
  }

  lemma NextMayGo(c: Chain, i: nat)
    requires Inv(c) && IsNext(c, i) && forall h: nat :: SameSeat(c.slots, h, i) ==> c.slots[h].status != Running
    ensures Enabled(c, Begin(i)) || Enabled(c, Drop(i))
  {
    assert IsLink(c.slots, i);
    if c.slots[i].prev.Some? {
      assert forall h: nat :: Behind(c.slots, h, i) ==> SameSeat(c.slots, h, i);
      AllOverMeansOpen(c, c.slots[i].prev.value);
    }
  }

  /** At any point of any run: a call that may begin runs, alone on its seat, until it ends; then the next in line
      may begin or be dropped at once. Other calls are not touched. */
  lemma SeatIsHandedOn(events: seq<Event>, i: nat, j: nat)
    requires Possible(NoCalls, events) && Enabled(Run(NoCalls, events), Begin(i))
    ensures var c := Run(NoCalls, events);
            var t := Step(c, Begin(i));
            && t.starts == c.starts + [i] && t.slots == c.slots[i := c.slots[i].(status := Running)]
            && (forall h: nat :: h != i && SameSeat(t.slots, h, i) ==> t.slots[h].status != Running)
            && Enabled(t, End(i))
            && var u := Step(t, End(i));
               && u.slots == c.slots[i := c.slots[i].(status := Finished)] && u.starts == t.starts
               && (IsNext(u, j) && SameSeat(u.slots, j, i) ==> Enabled(u, Begin(j)) || Enabled(u, Drop(j)))
  {
    RunKeepsInv(NoCalls, events);
    var c := Run(NoCalls, events);
    BeginsAndEnds(c, i);
    var t := Step(c, Begin(i));
    StepKeepsInv(c, Begin(i));
    StepKeepsInv(t, End(i));
    hide Inv, Possible, Run, Step, Enabled, IsNext;
    OneRuns(t, i);
    var u := Step(t, End(i));
    NextAfter(t, u, i, j);
  }

  lemma NextAfter(c: Chain, u: Chain, i: nat, j: nat)
    requires Inv(c) && Inv(u) && i < |c.slots| && c.slots[i].status == Running && u.slots == c.slots[i := c.slots[i].(status := Finished)]
    ensures IsNext(u, j) && SameSeat(u.slots, j, i) ==> Enabled(u, Begin(j)) || Enabled(u, Drop(j))
  {
    hide Inv, Enabled;
    OneRuns(c, i);
    if IsNext(u, j) && SameSeat(u.slots, j, i) {
      assert forall h: nat :: SameSeat(u.slots, h, j) ==> SameSeat(c.slots, h, i);
      NextMayGo(u, j);
    }
  }

  lemma BeginsAndEnds(c: Chain, i: nat)
    requires Enabled(c, Begin(i))
    ensures var t := Step(c, Begin(i));
            && t.starts == c.starts + [i] && t.slots == c.slots[i := c.slots[i].(status := Running)] && Enabled(t, End(i))
            && var u := Step(t, End(i)); u.slots == c.slots[i := c.slots[i].(status := Finished)] && u.starts == t.starts
  {
  }

  lemma OneRuns(c: Chain, i: nat)
    requires Inv(c) && i < |c.slots| && c.slots[i].status == Running
    ensures forall h: nat :: h != i && SameSeat(c.slots, h, i) ==> c.slots[h].status != Running
  {
    forall h: nat | h != i && SameSeat(c.slots, h, i)
      ensures c.slots[h].status != Running
    {
      assert Behind(c.slots, h, i) || Behind(c.slots, i, h);
    }
  }

  // ------------------------------------------------------------------ the serializer object

  /** The serializer with the calls it has made. Its lock map is overwritten per call; the promises of the
      source are the slots. */
  class SeatSerializer {
    var slots: seq<Slot>
    var locks: map<Seat, nat>
    var fired: set<Signal>
    ghost var starts: seq<nat>

    constructor ()
      ensures Now() == NoCalls
    {
      slots, locks, fired, starts := [], map[], {}, [];
    }

    ghost function Now(): Chain
      reads this
    {
      Chain(slots, locks, fired, starts)
    }

    /** run, up to its first wait. */
    method Enter(seat: Seat, signal: Option<Signal>) returns (i: nat)
      modifies this
      ensures Now() == Step(old(Now()), Call(seat, signal)) && i == |old(slots)|
    {
      i := |slots|;
      var prev := if seat in locks then Some(locks[seat]) else None;
      slots := slots + [Slot(seat, prev, signal, Queued)];
      locks := locks[seat := i];
    }

    /** The call wakes up because the lock before it resolved or its signal fired: it runs its work, or
        gives its slot up. */
    method Wake(i: nat) returns (runs: bool)
      requires i < |slots| && slots[i].status == Queued
      requires PrevDone(slots, i) || IsAborted(Now(), i)
      modifies this
      ensures runs == Enabled(old(Now()), Begin(i))
      ensures runs ==> Now() == Step(old(Now()), Begin(i))
      ensures !runs ==> Enabled(old(Now()), Drop(i)) && Now() == Step(old(Now()), Drop(i))
    {
      if slots[i].signal.Some? && slots[i].signal.value in fired {
        slots := slots[i := slots[i].(status := Dropped)];
        return false;
      }
      slots := slots[i := slots[i].(status := Running)];
      starts := starts + [i];
      return true;
    }

    /** The finally block after the work. */
    method Leave(i: nat)
      requires i < |slots| && slots[i].status == Running
      modifies this
      ensures Now() == Step(old(Now()), End(i))
    {
      slots := slots[i := slots[i].(status := Finished)];
    }
  }
}
