/** The auto-reply cooldown table (auto-reply-cooldown.ts): one synchronous step checks and reserves all
    pairs of a send, and the send later releases or finalizes its ticket. */
module Cooldown {
  import opened Common
  import CanonicalJson
  import JsonText

  /** A normalized sender and recipient, joined. */
  type Key = JsonText.Text

  /** A pair with a ticket is still reserved by it; otherwise `until` ends its cooldown. */
  datatype Entry = Entry(until: int, ticket: Option<nat>)

  type Pairs = map<Key, Entry>

  /** Number 0 is the empty ticket of a disabled cooldown. */
  datatype Ticket = Ticket(id: nat, keys: seq<Key>)

  datatype Reserved = Granted(ticket: Ticket) | Refused(retryAfterSec: int)

  const NoTicket := Ticket(0, [])

  // ------------------------------------------------------------------ the table as a value

  function Kept(e: Entry, now: int): bool { e.ticket.Some? || e.until > now }

  function DropExpired(pairs: Pairs, now: int): Pairs {
    map k | k in pairs && Kept(pairs[k], now) :: pairs[k]
  }

  /** How long an entry of a table without expired entries still blocks: a reservation at least a second. */
  function RemainMs(e: Entry, now: int): int {
    if e.ticket.Some? then Max(e.until - now, 1000) else e.until - now
  }

  function RetrySec(remainMs: int): int { Max(1, (remainMs + 999) / 1000) }

  /** Each key once, in order of first appearance. */
  function Unique(keys: seq<Key>): (r: seq<Key>)
    ensures forall k :: k in r <==> k in keys
    ensures forall i, j :: 0 <= i < j < |r| ==> r[i] != r[j]
  {
    if keys == [] then [] else
    var init, last := keys[..|keys| - 1], keys[|keys| - 1];
    assert keys == init + [last];
    if last in Unique(init) then Unique(init) else Unique(init) + [last]
  }

  /** The longest remaining time over the keys that are in the table; 0 if none is. */
  function LongestMs(pairs: Pairs, keys: seq<Key>, now: int): int {
    if keys == [] then 0 else
    var rest := LongestMs(pairs, keys[..|keys| - 1], now);
    var k := keys[|keys| - 1];
    if k in pairs then Max(rest, RemainMs(pairs[k], now)) else rest
  }

  function Finals(pairs: Pairs, now: int): set<int> {
    set k | k in pairs && pairs[k].ticket.None? && pairs[k].until > now :: pairs[k].until
  }

  /** The hint of a full table: when the first cooldown ends, or the configured time if none runs. */
  ghost predicate IsFullHint(pairs: Pairs, now: int, cooldownSec: int, retry: int) {
    var ends := Finals(pairs, now);
    if ends == {} then retry == Max(1, cooldownSec)
    else exists t :: t in ends && (forall u :: u in ends ==> t <= u) && retry == RetrySec(t - now)
  }

  predicate Blocks(pairs: Pairs, keys: seq<Key>) {
    exists k :: k in keys && k in pairs
  }

  /** None of the pairs is in the table and all of them fit. */
  predicate MayReserve(live: Pairs, keys: seq<Key>, cap: nat) {
    !Blocks(live, keys) && |live| + |keys| <= cap
  }

  ghost predicate IsRetryHint(live: Pairs, keys: seq<Key>, now: int, cooldownSec: int, retry: int) {
    if Blocks(live, keys) then retry == RetrySec(LongestMs(live, keys, now)) else IsFullHint(live, now, cooldownSec, retry)
  }

  function Take(pairs: Pairs, keys: seq<Key>, e: Entry): Pairs {
    map k | k in pairs.Keys + (set x | x in keys) :: if k in keys then e else pairs[k]
  }

  predicate Owns(pairs: Pairs, k: Key, id: nat) { k in pairs && pairs[k].ticket == Some(id) }

  function Released(pairs: Pairs, t: Ticket): Pairs {
    map k | k in pairs && !(k in t.keys && Owns(pairs, k, t.id)) :: pairs[k]
  }

  function Finalized(pairs: Pairs, t: Ticket, until: int): Pairs {
    map k | k in pairs :: if k in t.keys && Owns(pairs, k, t.id) then Entry(until, None) else pairs[k]
  }

  // ------------------------------------------------------------------ the table as the source changes it

  class CooldownTable {
    var pairs: Pairs
    var nextId: nat
    const cap: nat

    constructor (cap: nat)
      ensures pairs == map[] && nextId == 1 && this.cap == cap
    {
      pairs, nextId, this.cap := map[], 1, cap;
    }

    method Drop(now: int)
      modifies this`pairs
      ensures pairs == DropExpired(old(pairs), now)
    {
      ghost var before := pairs;
      var left := pairs.Keys;
      while left != {}
        invariant left <= before.Keys
        invariant pairs == map k | k in before && (k in left || Kept(before[k], now)) :: before[k]
        decreases left
      {
        var k :| k in left;
        left := left - {k};
        if pairs[k].ticket.None? && pairs[k].until <= now { pairs := pairs - {k}; }
      }
    }

    static method UniqueKeys(keys: seq<Key>) returns (r: seq<Key>)
      ensures r == Unique(keys)
    {
      r := [];
      for i := 0 to |keys|
        invariant r == Unique(keys[..i])
      {
        assert keys[..i + 1][..i] == keys[..i];
        if keys[i] !in r { r := r + [keys[i]]; }
      }
      assert keys[..|keys|] == keys;
    }

    method FullHint(now: int, cooldownSec: int) returns (retry: int)
      ensures IsFullHint(pairs, now, cooldownSec, retry)
    {
      var earliest: Option<int> := None;
      var left := pairs.Keys;
      while left != {}
        invariant left <= pairs.Keys
        invariant earliest.None? ==> forall k :: k in pairs && k !in left ==> pairs[k].ticket.Some? || pairs[k].until <= now
        invariant earliest.Some? ==> earliest.value in Finals(pairs, now)
        invariant earliest.Some? ==> forall k :: k in pairs && k !in left && pairs[k].ticket.None? && pairs[k].until > now ==> earliest.value <= pairs[k].until
        decreases left
      {
        var k :| k in left;
        left := left - {k};
        var e := pairs[k];
        if e.ticket.None? && e.until > now {
          assert e.until in Finals(pairs, now);
          if earliest.None? || e.until < earliest.value { earliest := Some(e.until); }
        }
      }
      if earliest.None? {
        assert Finals(pairs, now) == {};
        return Max(1, cooldownSec);
      }
      assert forall u :: u in Finals(pairs, now) ==> earliest.value <= u;
      return RetrySec(earliest.value - now);
    }

    /** The loop over the pairs asked for that looks for one in the table. */
    method FindBlock(keys: seq<Key>, now: int) returns (blocked: bool, longest: int)
      ensures blocked <==> Blocks(pairs, keys)
      ensures longest == LongestMs(pairs, keys, now)
    {
      longest, blocked := 0, false;
      for i := 0 to |keys|
        invariant longest == LongestMs(pairs, keys[..i], now)
        invariant blocked <==> Blocks(pairs, keys[..i])
      {
        assert keys[..i + 1][..i] == keys[..i] && keys[..i + 1] == keys[..i] + [keys[i]];
        if keys[i] in pairs {
          blocked := true;
          var remain := RemainMs(pairs[keys[i]], now);
          if remain > longest { longest := remain; }
        }
      }
      assert keys[..|keys|] == keys;
    }

    /** The loop that puts the reservation under every pair. */
    method TakeAll(keys: seq<Key>, e: Entry)
      modifies this`pairs
      ensures pairs == Take(old(pairs), keys, e)
    {
      ghost var live := pairs;
      for i := 0 to |keys|
        invariant pairs == Take(live, keys[..i], e)
      {
        assert keys[..i + 1] == keys[..i] + [keys[i]];
        pairs := pairs[keys[i] := e];
      }
      assert keys[..|keys|] == keys;
    }

    /** A refusal changes nothing but the expired entries; a grant adds exactly the pairs asked for, none of
        which was in the table, and the table stays within its cap. */
    method CheckAndReserve(asked: seq<Key>, cooldownSec: int, now: int) returns (r: Reserved)
      modifies this
      ensures cooldownSec <= 0 ==> r == Granted(NoTicket) && pairs == old(pairs) && nextId == old(nextId)
      ensures cooldownSec > 0 ==>
                var live := DropExpired(old(pairs), now);
                var keys := Unique(asked);
                && (r.Granted? <==> MayReserve(live, keys, cap))
                && (r.Granted? ==> r.ticket == Ticket(old(nextId), keys) && nextId == old(nextId) + 1)
                && (r.Granted? ==> pairs == Take(live, keys, Entry(now + cooldownSec * 1000, Some(old(nextId)))))
                && (r.Refused? ==> pairs == live && nextId == old(nextId) && IsRetryHint(live, keys, now, cooldownSec, r.retryAfterSec))
    {
      if cooldownSec <= 0 { return Granted(NoTicket); }
      Drop(now);
      var keys := UniqueKeys(asked);
      var blocked, longest := FindBlock(keys, now);
      if blocked { return Refused(RetrySec(longest)); }
      if |pairs| + |keys| > cap {
        var retry := FullHint(now, cooldownSec);
        return Refused(retry);
      }
      var id := nextId;
      nextId := nextId + 1;
      TakeAll(keys, Entry(now + cooldownSec * 1000, Some(id)));
      return Granted(Ticket(id, keys));
    }

    method Release(t: Ticket)
      modifies this`pairs
      ensures pairs == if t.id == 0 then old(pairs) else Released(old(pairs), t)
    {
      if t.id == 0 { return; }
      ghost var before := pairs;
      for i := 0 to |t.keys|
        invariant pairs == Released(before, Ticket(t.id, t.keys[..i]))
      {
        assert t.keys[..i + 1] == t.keys[..i] + [t.keys[i]];
        if t.keys[i] in pairs && pairs[t.keys[i]].ticket == Some(t.id) { pairs := pairs - {t.keys[i]}; }
      }
      assert t.keys[..|t.keys|] == t.keys;
    }

    method Finalize(t: Ticket, cooldownSec: int, now: int)
      modifies this`pairs
      ensures pairs == if t.id == 0 || cooldownSec <= 0 then old(pairs) else Finalized(old(pairs), t, now + cooldownSec * 1000)
    {
      if t.id == 0 || cooldownSec <= 0 { return; }
      var until := now + cooldownSec * 1000;
      ghost var before := pairs;
      for i := 0 to |t.keys|
        invariant pairs == Finalized(before, Ticket(t.id, t.keys[..i]), until)
      {
        assert t.keys[..i + 1] == t.keys[..i] + [t.keys[i]];
        if t.keys[i] in pairs && pairs[t.keys[i]].ticket == Some(t.id) { pairs := pairs[t.keys[i] := Entry(until, None)]; }
      }
      assert t.keys[..|t.keys|] == t.keys;
    }
  }

  // ------------------------------------------------------------------ whole runs

  /** `granted` are all tickets ever given, `open` those neither released nor finalized, and `ends` the end
      of the last cooldown of each pair, rebuilt or finalized. */
  datatype World = World(pairs: Pairs, nextId: nat, cap: nat, clock: int, granted: map<nat, seq<Key>>, open: set<nat>, ends: map<Key, int>)

  datatype Event = Ask(keys: seq<Key>, cooldownSec: int, wait: nat) | GiveUp(id: nat) | Done(id: nat, cooldownSec: int, wait: nat)

  function AskStep(w: World, asked: seq<Key>, cooldownSec: int, now: int): World {
    if cooldownSec <= 0 then w.(clock := now) else
    var live := DropExpired(w.pairs, now);
    var keys := Unique(asked);
    if !MayReserve(live, keys, w.cap) then w.(pairs := live, clock := now)
    else World(Take(live, keys, Entry(now + cooldownSec * 1000, Some(w.nextId))), w.nextId + 1, w.cap, now,
               w.granted[w.nextId := keys], w.open + {w.nextId}, w.ends)
  }

  /** The ends of cooldowns after a ticket was finalized; a ticket that is no longer open changes nothing. */
  function EndsAfter(w: World, id: nat, until: int): map<Key, int> {
    if id !in w.open || id !in w.granted then w.ends
    else map k | k in w.ends.Keys + (set x | x in w.granted[id]) :: if k in w.granted[id] then until else w.ends[k]
  }

  /** A ticket may be handed back any number of times; the first one counts. */
  function Step(w: World, e: Event): World {
    match e
    case Ask(keys, cooldownSec, wait) => AskStep(w, keys, cooldownSec, w.clock + wait)
    case GiveUp(id) =>
      if id !in w.granted then w else w.(pairs := Released(w.pairs, Ticket(id, w.granted[id])), open := w.open - {id})
    case Done(id, cooldownSec, wait) =>
      var now := w.clock + wait;
      if id !in w.granted || cooldownSec <= 0 then w.(clock := now) else
      var until := now + cooldownSec * 1000;
      w.(pairs := Finalized(w.pairs, Ticket(id, w.granted[id]), until), open := w.open - {id}, clock := now, ends := EndsAfter(w, id, until))
  }

  function Run(w: World, events: seq<Event>): World
    decreases |events|
  {
    if events == [] then w else Run(Step(w, events[0]), events[1..])
  }

  /** A table as a rebuild leaves it: only cooldowns, within the cap. */
  predicate Start(w: World) {
    w.nextId > 0 && w.granted == map[] && w.open == {} && |w.pairs| <= w.cap && (forall k :: k in w.pairs ==> w.pairs[k].ticket.None?)
    && w.ends == map k | k in w.pairs :: w.pairs[k].until
  }

  /** An open ticket holds this pair. */
  predicate Holds(w: World, id: nat, k: Key) {
    id in w.open && id in w.granted && k in w.granted[id]
  }

  ghost predicate OpenOwnsAll(w: World) {
    forall id, k :: Holds(w, id, k) ==> Owns(w.pairs, k, id)
  }

  predicate OwnersAreOpen(w: World) {
    forall k :: k in w.pairs && w.pairs[k].ticket.Some? ==>
      Holds(w, w.pairs[k].ticket.value, k)
  }

  predicate EndsHold(w: World) {
    forall k :: k in w.ends && w.ends[k] > w.clock ==> k in w.pairs && w.pairs[k] == Entry(w.ends[k], None)
  }

  ghost predicate Inv(w: World) {
    && |w.pairs| <= w.cap && w.nextId > 0
    && w.open <= w.granted.Keys && (forall id :: id in w.granted ==> 0 < id < w.nextId)
    && OpenOwnsAll(w) && OwnersAreOpen(w) && EndsHold(w)
  }

  lemma {:induction false} DistinctCount(keys: seq<Key>)
    requires forall i, j :: 0 <= i < j < |keys| ==> keys[i] != keys[j]
    ensures |(set x | x in keys)| == |keys|
  {
    if keys != [] {
      DistinctCount(keys[1..]);
      assert (set x | x in keys) == {keys[0]} + set x | x in keys[1..];
    }
  }

  lemma SmallerMap(a: Pairs, b: Pairs)
    requires a.Keys <= b.Keys
    ensures |a| <= |b|
  {
    var rest := b.Keys - a.Keys;
    assert b.Keys == a.Keys + rest;
    assert |a| == |a.Keys| && |b| == |b.Keys|;
  }

  lemma TakeCount(live: Pairs, keys: seq<Key>, e: Entry)
    requires !Blocks(live, keys) && forall i, j :: 0 <= i < j < |keys| ==> keys[i] != keys[j]
    ensures |Take(live, keys, e)| == |live| + |keys|
  {
    DistinctCount(keys);
    var added := set x | x in keys;
    assert Take(live, keys, e).Keys == live.Keys + added;
    assert live.Keys !! added;
    assert |live| == |live.Keys| && |Take(live, keys, e)| == |Take(live, keys, e).Keys|;
  }

  lemma DropKeepsInv(w: World, now: int)
    requires Inv(w) && now >= w.clock
    ensures Inv(w.(pairs := DropExpired(w.pairs, now), clock := now))
  {
    var t := w.(pairs := DropExpired(w.pairs, now), clock := now);
    SmallerMap(t.pairs, w.pairs);
    forall id, k | Holds(t, id, k)
      ensures Owns(t.pairs, k, id)
    {
      assert Holds(w, id, k);
    }
    forall k | k in t.pairs && t.pairs[k].ticket.Some?
      ensures Holds(t, t.pairs[k].ticket.value, k)
    {
      assert Holds(w, w.pairs[k].ticket.value, k);
    }
  }

  lemma ReserveKeepsInv(w: World, keys: seq<Key>, until: int)
    requires Inv(w) && MayReserve(w.pairs, keys, w.cap) && forall i, j :: 0 <= i < j < |keys| ==> keys[i] != keys[j]
    ensures Inv(World(Take(w.pairs, keys, Entry(until, Some(w.nextId))), w.nextId + 1, w.cap, w.clock,
                      w.granted[w.nextId := keys], w.open + {w.nextId}, w.ends))
  {
    TakeCount(w.pairs, keys, Entry(until, Some(w.nextId)));
    var t := World(Take(w.pairs, keys, Entry(until, Some(w.nextId))), w.nextId + 1, w.cap, w.clock,
                   w.granted[w.nextId := keys], w.open + {w.nextId}, w.ends);
    forall id, k | Holds(t, id, k)
      ensures Owns(t.pairs, k, id)
    {
      if id != w.nextId {
        assert Holds(w, id, k);
        assert k !in keys;
      }
    }
    forall k | k in t.pairs && t.pairs[k].ticket.Some?
      ensures Holds(t, t.pairs[k].ticket.value, k)
    {
      if k !in keys { assert Holds(w, w.pairs[k].ticket.value, k); }
    }
    assert EndsHold(t);
  }

  lemma ReleaseKeepsInv(w: World, id: nat)
    requires Inv(w) && id in w.granted
    ensures Inv(w.(pairs := Released(w.pairs, Ticket(id, w.granted[id])), open := w.open - {id}))
  {
    var t := w.(pairs := Released(w.pairs, Ticket(id, w.granted[id])), open := w.open - {id});
    SmallerMap(t.pairs, w.pairs);
    forall other, k | Holds(t, other, k)
      ensures Owns(t.pairs, k, other)
    {
      assert Holds(w, other, k);
    }
  }

  lemma FinalizeKeepsInv(w: World, id: nat, cooldownSec: int, now: int)
    requires Inv(w) && id in w.granted && now >= w.clock && cooldownSec > 0
    ensures var until := now + cooldownSec * 1000;
            Inv(w.(pairs := Finalized(w.pairs, Ticket(id, w.granted[id]), until), open := w.open - {id}, clock := now, ends := EndsAfter(w, id, until)))
  {
    var until := now + cooldownSec * 1000;
    var t := w.(pairs := Finalized(w.pairs, Ticket(id, w.granted[id]), until), open := w.open - {id}, clock := now, ends := EndsAfter(w, id, until));
    SmallerMap(t.pairs, w.pairs);
    forall other, k | Holds(t, other, k)
      ensures Owns(t.pairs, k, other)
    {
      assert Holds(w, other, k);
    }
    if id in w.open {
      forall k | k in w.granted[id]
        ensures k in t.pairs && t.pairs[k] == Entry(until, None)
      {
        assert Holds(w, id, k);
      }
    }
  }

  lemma AskKeepsInv(w: World, asked: seq<Key>, cooldownSec: int, now: int)
    requires Inv(w) && now >= w.clock
    ensures Inv(AskStep(w, asked, cooldownSec, now))
  {
    hide Inv, Take, DropExpired, MayReserve;
    DropKeepsInv(w, now);
    ClockKeepsInv(w, now);
    var live := DropExpired(w.pairs, now);
    if cooldownSec > 0 && MayReserve(live, Unique(asked), w.cap) {
      ReserveKeepsInv(w.(pairs := live, clock := now), Unique(asked), now + cooldownSec * 1000);
    }
  }

  lemma ClockKeepsInv(w: World, now: int)
    requires Inv(w) && now >= w.clock
    ensures Inv(w.(clock := now))
  {
  }

  lemma StepKeepsInv(w: World, e: Event)
    requires Inv(w)
    ensures Inv(Step(w, e))
  {
    hide Inv, AskStep, Released, Finalized, EndsAfter;
    match e
    case Ask(asked, cooldownSec, wait) => AskKeepsInv(w, asked, cooldownSec, w.clock + wait);
    case GiveUp(id) => if id in w.granted { ReleaseKeepsInv(w, id); }
    case Done(id, cooldownSec, wait) => {
      if id in w.granted && cooldownSec > 0 {
        FinalizeKeepsInv(w, id, cooldownSec, w.clock + wait);
      } else {
        ClockKeepsInv(w, w.clock + wait);
      }
    }
  }

  lemma {:induction false} RunKeepsInv(w: World, events: seq<Event>)
    requires Inv(w)
    ensures Inv(Run(w, events))
    decreases |events|
  {
    hide Inv, Step;
    if events != [] {
      StepKeepsInv(w, events[0]);
      RunKeepsInv(Step(w, events[0]), events[1..]);
    }
  }

  /** Over every run of reserve, release and finalize: the table stays within its cap, an open ticket still
      owns all its pairs, and no two open tickets share one. */
  lemma TicketsStayApart(start: World, events: seq<Event>)
    requires Start(start)
    ensures var w := Run(start, events);
            && |w.pairs| <= start.cap
            && (forall id, k :: Holds(w, id, k) ==> Owns(w.pairs, k, id))
            && (forall a, b, k :: Holds(w, a, k) && Holds(w, b, k) ==> a == b)
  {
    RunKeepsInv(start, events);
    CapStays(start, events);
    var w := Run(start, events);
    forall a, b, k | Holds(w, a, k) && Holds(w, b, k)
      ensures a == b
    {
      assert Owns(w.pairs, k, a) && Owns(w.pairs, k, b);
    }
  }

  lemma {:induction false} CapStays(w: World, events: seq<Event>)
    ensures Run(w, events).cap == w.cap
    decreases |events|
  {
    if events != [] { CapStays(Step(w, events[0]), events[1..]); }
  }

  /** A cooldown that is still running is not replaced by another. */
  lemma StepKeepsEnds(w: World, e: Event, k: Key)
    requires Inv(w) && k in w.ends && w.ends[k] > Step(w, e).clock
    ensures k in Step(w, e).ends && Step(w, e).ends[k] == w.ends[k]
  {
    if e.Done? { assert Holds(w, e.id, k) ==> Owns(w.pairs, k, e.id); }
  }

  lemma {:induction false} RunKeepsEnds(w: World, events: seq<Event>, k: Key)
    requires Inv(w) && k in w.ends && w.ends[k] > Run(w, events).clock
    ensures k in Run(w, events).ends && Run(w, events).ends[k] == w.ends[k]
    decreases |events|
  {
    if events != [] {
      hide Inv, Step;
      ClockGrows(Step(w, events[0]), events[1..]);
      StepKeepsEnds(w, events[0], k);
      StepKeepsInv(w, events[0]);
      RunKeepsEnds(Step(w, events[0]), events[1..], k);
    }
  }

  lemma {:induction false} ClockGrows(w: World, events: seq<Event>)
    ensures Run(w, events).clock >= w.clock
    decreases |events|
  {
    if events != [] { ClockGrows(Step(w, events[0]), events[1..]); }
  }

  /** A pair that is or was in cooldown at any point of a run, by a rebuild or by a finalize, is not reserved
      before that cooldown is over; and a reservation takes no pair of an open ticket. */
  lemma NoReserveInCooldown(start: World, events: seq<Event>, more: seq<Event>, asked: seq<Key>, cooldownSec: int, wait: nat, k: Key)
    requires Start(start) && cooldownSec > 0 && k in asked
    ensures var w := Run(start, events);
            var v := Run(w, more);
            var now := v.clock + wait;
            MayReserve(DropExpired(v.pairs, now), Unique(asked), v.cap) ==>
              && (k in w.ends ==> w.ends[k] <= now)
              && (forall id :: !Holds(v, id, k))
  {
    hide Inv, DropExpired, MayReserve, Holds, Start, Run;
    StartIsOk(start);
    RunKeepsInv(start, events);
    var w := Run(start, events);
    RunKeepsInv(w, more);
    var v := Run(w, more);
    if MayReserve(DropExpired(v.pairs, v.clock + wait), Unique(asked), v.cap) {
      ReservesOnlyFree(v, Unique(asked), v.clock + wait, k);
      if k in w.ends && w.ends[k] > v.clock { RunKeepsEnds(w, more, k); }
    }
  }

  /** A rebuilt table is a start, with the cooldowns it installed. */
  lemma RebuiltIsStart(rows: seq<Row>, cooldownSec: int, now: int, cap: nat)
    ensures var pairs := Rebuilt(rows, cooldownSec, now, cap);
            Start(World(pairs, 1, cap, now, map[], {}, map k | k in pairs :: pairs[k].until))
  {
    if cooldownSec > 0 { RebuildKeepsLatest(rows, cooldownSec, now, cap); }
  }

  lemma StartIsOk(w: World)
    requires Start(w)
    ensures Inv(w)
  {
  }

  lemma ReservesOnlyFree(w: World, keys: seq<Key>, now: int, k: Key)
    requires Inv(w) && now >= w.clock && k in keys && MayReserve(DropExpired(w.pairs, now), keys, w.cap)
    ensures (k in w.ends ==> w.ends[k] <= now) && forall id :: !Holds(w, id, k)
  {
    assert k !in DropExpired(w.pairs, now);
    forall id: nat
      ensures !Holds(w, id, k)
    {
      assert Holds(w, id, k) ==> Owns(w.pairs, k, id);
    }
  }

  /** A pair that is not reserved is in a cooldown that was rebuilt or finalized. */
  predicate CooldownsAreEnds(w: World) {
    forall k :: k in w.pairs && w.pairs[k].ticket.None? ==> k in w.ends && w.ends[k] == w.pairs[k].until
  }

  lemma StepKeepsCooldowns(w: World, e: Event)
    requires Inv(w) && CooldownsAreEnds(w)
    ensures CooldownsAreEnds(Step(w, e))
  {
    if e.Done? { OwnedAreMine(w, e.id); }
  }

  lemma {:induction false} RunKeepsCooldowns(w: World, events: seq<Event>)
    requires Inv(w) && CooldownsAreEnds(w)
    ensures CooldownsAreEnds(Run(w, events))
    decreases |events|
  {
    hide Inv, Step, CooldownsAreEnds;
    if events != [] {
      StepKeepsCooldowns(w, events[0]);
      StepKeepsInv(w, events[0]);
      RunKeepsCooldowns(Step(w, events[0]), events[1..]);
    }
  }

  function Asked(keys: seq<Key>): set<Key> { set k | k in keys }

  /** The pairs of the open tickets and those whose last cooldown is still running. */
  function Taken(w: World, now: int): set<Key> {
    (set id, k | id in w.open && id in w.granted && k in w.granted[id] :: k) + (set k | k in w.ends && w.ends[k] > now)
  }

  lemma LiveIsTaken(w: World, now: int)
    requires Inv(w) && CooldownsAreEnds(w) && now >= w.clock
    ensures DropExpired(w.pairs, now).Keys == Taken(w, now)
  {
    var live, taken := DropExpired(w.pairs, now), Taken(w, now);
    forall k | k in live
      ensures k in taken
    {
      if w.pairs[k].ticket.Some? { assert Holds(w, w.pairs[k].ticket.value, k); }
    }
    forall k | k in taken
      ensures k in live
    {
      if id :| id in w.open && id in w.granted && k in w.granted[id] { assert Holds(w, id, k) && Owns(w.pairs, k, id); }
    }
  }

  lemma UniqueCount(keys: seq<Key>)
    ensures |Unique(keys)| == |Asked(keys)|
    ensures Asked(Unique(keys)) == Asked(keys)
  {
    var r := Unique(keys);
    hide Unique;
    assert forall k :: k in r <==> k in keys;
    assert Asked(r) == Asked(keys);
    DistinctCount(r);
    var s := set x | x in r;
    assert Asked(r) == s;
  }

  /** At any point of any run a send gets a ticket exactly when no pair it asks for belongs to an open ticket
      or is in a running cooldown, and those together with the pairs asked for fit. The ticket is a new one,
      holds just the pairs asked for, and every other pair stays as it was until it expires. */
  lemma ReservesExactly(start: World, events: seq<Event>, asked: seq<Key>, cooldownSec: int, wait: nat)
    requires Start(start) && cooldownSec > 0
    ensures var w := Run(start, events);
            var now := w.clock + wait;
            var taken := Taken(w, now);
            var v := Step(w, Ask(asked, cooldownSec, wait));
            var id := w.nextId;
            && id !in w.granted
            && (id in v.open <==> (forall k :: k in asked ==> k !in taken) && |taken| + |Asked(asked)| <= start.cap)
            && (id in v.open ==>
                  && Mine(v, id) == Asked(asked)
                  && forall k :: k in asked ==> k in v.pairs && v.pairs[k] == Entry(now + cooldownSec * 1000, Some(id)))
            && (forall k :: k in taken ==> k in w.pairs && k in v.pairs && v.pairs[k] == w.pairs[k])
            && (forall k :: k in v.pairs ==> k in taken || (id in v.open && k in asked))
  {
    hide Start, Run, Taken, Inv, AskStep, DropExpired, CooldownsAreEnds, Mine, Asked;
    StartIsOk(start);
    assert CooldownsAreEnds(start) by { StartHasEnds(start); }
    RunKeepsInv(start, events);
    RunKeepsCooldowns(start, events);
    CapStays(start, events);
    var w := Run(start, events);
    var now := w.clock + wait;
    LiveIsTaken(w, now);
    AskReserves(w, asked, cooldownSec, now);
  }

  lemma StartHasEnds(w: World)
    requires Start(w)
    ensures CooldownsAreEnds(w)
  {
  }

  lemma AskReserves(w: World, asked: seq<Key>, cooldownSec: int, now: int)
    requires Inv(w) && cooldownSec > 0 && now >= w.clock
    ensures var live := DropExpired(w.pairs, now);
            var v := AskStep(w, asked, cooldownSec, now);
            var id := w.nextId;
            && id !in w.granted
            && (id in v.open <==> (forall k :: k in asked ==> k !in live) && |live.Keys| + |Asked(asked)| <= w.cap)
            && (id in v.open ==>
                  && Mine(v, id) == Asked(asked)
                  && forall k :: k in asked ==> k in v.pairs && v.pairs[k] == Entry(now + cooldownSec * 1000, Some(id)))
            && (forall k :: k in live ==> k in w.pairs && k in v.pairs && v.pairs[k] == w.pairs[k])
            && (forall k :: k in v.pairs ==> k in live || (id in v.open && k in asked))
  {
    hide OpenOwnsAll, OwnersAreOpen, EndsHold;
    UniqueCount(asked);
    var live := DropExpired(w.pairs, now);
    assert |live| == |live.Keys|;
    assert forall k :: k in asked <==> k in Unique(asked);
  }

  /** The pairs of a ticket that is open. */
  function Mine(w: World, id: nat): set<Key> {
    if id in w.open && id in w.granted then set k | k in w.granted[id] else {}
  }

  /** At any point of any run, releasing a ticket takes exactly the pairs of its reservation out of the table
      and finalizing it turns exactly those into cooldowns, whatever happened in between; a ticket that was
      handed back before, or never given, changes no pair. */
  lemma ReleaseUndoesReserve(start: World, events: seq<Event>, id: nat, cooldownSec: int, wait: nat)
    requires Start(start) && cooldownSec > 0
    ensures var w := Run(start, events);
            var mine := Mine(w, id);
            var end := w.clock + wait + cooldownSec * 1000;
            && (forall k :: k in mine ==> Owns(w.pairs, k, id))
            && Step(w, GiveUp(id)).pairs == w.pairs - mine
            && Step(w, Done(id, cooldownSec, wait)).pairs == map k | k in w.pairs :: if k in mine then Entry(end, None) else w.pairs[k]
  {
    hide Inv, Run, Mine, Step, Owns;
    StartIsOk(start);
    RunKeepsInv(start, events);
    HandingBack(Run(start, events), id, cooldownSec, wait);
  }

  lemma HandingBack(w: World, id: nat, cooldownSec: int, wait: nat)
    requires Inv(w) && cooldownSec > 0
    ensures var mine := Mine(w, id);
            var end := w.clock + wait + cooldownSec * 1000;
            && (forall k :: k in mine ==> Owns(w.pairs, k, id))
            && Step(w, GiveUp(id)).pairs == w.pairs - mine
            && Step(w, Done(id, cooldownSec, wait)).pairs == map k | k in w.pairs :: if k in mine then Entry(end, None) else w.pairs[k]
  {
    hide Inv, Mine;
    OwnedAreMine(w, id);
    MineAreGranted(w, id);
  }

  lemma MineAreGranted(w: World, id: nat)
    ensures id !in w.granted ==> Mine(w, id) == {}
    ensures id in w.granted ==> forall k :: k in Mine(w, id) ==> k in w.granted[id]
  {
  }

  lemma OwnedAreMine(w: World, id: nat)
    requires Inv(w)
    ensures forall k :: k in Mine(w, id) ==> Owns(w.pairs, k, id)
    ensures id in w.granted ==> forall k :: k in w.granted[id] && Owns(w.pairs, k, id) ==> k in Mine(w, id)
  {
    forall k | k in Mine(w, id)
      ensures Owns(w.pairs, k, id)
    {
      assert Holds(w, id, k);
    }
  }

  /** The retry hint of a send that a pair in the table blocks: when it is over every one of them has ended, and a
      second earlier one has not, unless the hint is a second, the least there is. A reservation ends with the time
      it was made for, and blocks for a second at least. */
  lemma RetryHintIsTight(pairs: Pairs, keys: seq<Key>, now: int, cooldownSec: int, retry: int)
    requires exists k :: k in keys && k in DropExpired(pairs, now)
    requires IsRetryHint(DropExpired(pairs, now), keys, now, cooldownSec, retry)
    ensures var live := DropExpired(pairs, now);
            && retry >= 1
            && (forall k :: k in keys && k in live ==> live[k].until <= now + retry * 1000)
            && (retry > 1 ==> exists k :: k in keys && k in live && live[k].until > now + (retry - 1) * 1000)
  {
    var live := DropExpired(pairs, now);
    LongestIsLongest(live, keys, now);
    assert Blocks(live, keys);
    var k :| k in keys && k in live && RemainMs(live[k], now) == LongestMs(live, keys, now);
    forall j | j in keys && j in live
      ensures live[j].until <= now + retry * 1000
    {
      assert RemainMs(live[j], now) <= LongestMs(live, keys, now);
    }
  }

  lemma {:induction false} LongestIsLongest(live: Pairs, keys: seq<Key>, now: int)
    requires forall k :: k in live ==> Kept(live[k], now)
    ensures forall k :: k in keys && k in live ==> RemainMs(live[k], now) <= LongestMs(live, keys, now)
    ensures LongestMs(live, keys, now) >= 0 && (!Blocks(live, keys) ==> LongestMs(live, keys, now) == 0)
    ensures Blocks(live, keys) ==> exists k :: k in keys && k in live && RemainMs(live[k], now) == LongestMs(live, keys, now)
  {
    if keys != [] {
      var init, last := keys[..|keys| - 1], keys[|keys| - 1];
      LongestIsLongest(live, init, now);
      assert keys == init + [last];
      if Blocks(live, init) && !(last in live && RemainMs(live[last], now) > LongestMs(live, init, now)) {
        var k :| k in init && k in live && RemainMs(live[k], now) == LongestMs(live, init, now);
        assert k in keys;
      } else if last in live {
        assert last in keys && RemainMs(live[last], now) == LongestMs(live, keys, now);
      }
    }
  }

  /** The hint of a send that nothing blocks but a full table: when it is over a cooldown that runs now has ended, and a second earlier none
      has; without a running cooldown it is the configured time, and a second at least. */
  lemma FullHintIsTight(pairs: Pairs, keys: seq<Key>, now: int, cooldownSec: int, retry: int)
    requires (forall k :: k in keys ==> k !in pairs) && IsRetryHint(pairs, keys, now, cooldownSec, retry)
    ensures retry >= 1
    ensures (forall k :: k in pairs && pairs[k].ticket.None? ==> pairs[k].until <= now) ==> retry == 1 || retry == cooldownSec
    ensures (forall k :: k in pairs && pairs[k].ticket.None? ==> pairs[k].until <= now) ==> retry >= cooldownSec
    ensures (exists k :: k in pairs && pairs[k].ticket.None? && pairs[k].until > now) ==>
              && (exists k :: k in pairs && pairs[k].ticket.None? && now < pairs[k].until <= now + retry * 1000)
              && (forall k :: k in pairs && pairs[k].ticket.None? && pairs[k].until > now ==> pairs[k].until > now + (retry - 1) * 1000)
  {
    var ends := Finals(pairs, now);
    if k :| k in pairs && pairs[k].ticket.None? && pairs[k].until > now {
      assert pairs[k].until in ends;
      var t :| t in ends && (forall u :: u in ends ==> t <= u) && retry == RetrySec(t - now);
      var j :| j in pairs && pairs[j].ticket.None? && pairs[j].until > now && pairs[j].until == t;
      assert now < pairs[j].until <= now + retry * 1000;
      forall i | i in pairs && pairs[i].ticket.None? && pairs[i].until > now
        ensures pairs[i].until > now + (retry - 1) * 1000
      {
        assert pairs[i].until in ends;
      }
    } else {
      assert ends == {};
    }
  }

  // ------------------------------------------------------------------ rebuilding from the send log

  /** A send-log row; `sentAt` is None if it does not parse. `to` holds the keys of sender and recipients. */
  datatype Row = Row(to: seq<Key>, result: string, autoReply: bool, failureKind: Option<string>, sentAt: Option<int>)

  predicate Answered(r: Row) {
    r.result == "queued" || (r.result == "failed" && r.failureKind == Some("smtp_response"))
  }

  /** The row starts a cooldown that is still running. */
  predicate Counts(r: Row, windowMs: int, now: int) {
    r.autoReply && Answered(r) && r.sentAt.Some? && r.sentAt.value <= now < r.sentAt.value + windowMs
  }

  function Later(m: map<Key, int>, k: Key, until: int): map<Key, int> {
    if k !in m || until > m[k] then m[k := until] else m
  }

  function LaterAll(m: map<Key, int>, keys: seq<Key>, until: int): map<Key, int> {
    if keys == [] then m else Later(LaterAll(m, keys[..|keys| - 1], until), keys[|keys| - 1], until)
  }

  /** The latest end per pair, row by row. */
  function Fresh(rows: seq<Row>, windowMs: int, now: int): map<Key, int> {
    if rows == [] then map[] else
    var init, last := Fresh(rows[..|rows| - 1], windowMs, now), rows[|rows| - 1];
    if Counts(last, windowMs, now) then LaterAll(init, last.to, last.sentAt.value + windowMs) else init
  }

  /** The sort order of the source: later ends first, then by key. */
  predicate Before(m: map<Key, int>, a: Key, b: Key)
    requires a in m && b in m
  {
    m[a] > m[b] || (m[a] == m[b] && CanonicalJson.Less(a, b))
  }

  predicate IsFirst(m: map<Key, int>, k: Key) {
    k in m && forall j :: j in m && j != k ==> Before(m, k, j)
  }

  lemma FirstExists(m: map<Key, int>)
    requires m != map[]
    ensures exists k :: IsFirst(m, k)
    decreases |m|
  {
    var x :| x in m;
    var rest := m - {x};
    RestIsSmaller(m, x);
    if rest == map[] {
      assert IsFirst(m, x) by {
        forall j | j in m
          ensures j == x
        {
          assert j == x || j in rest;
        }
      }
    } else {
      FirstExists(rest);
      var y :| IsFirst(rest, y);
      CanonicalJson.LessIsTotal(x, y);
      if Before(m, x, y) { FirstOfTwo(m, rest, x, y, x); } else { FirstOfTwo(m, rest, x, y, y); }
    }
  }

  lemma FirstOfTwo(m: map<Key, int>, rest: map<Key, int>, x: Key, y: Key, k: Key)
    requires x in m && rest == m - {x} && IsFirst(rest, y) && x != y
    requires k == if Before(m, x, y) then x else y
    ensures IsFirst(m, k)
  {
    CanonicalJson.LessIsTotal(x, y);
    forall j | j in m && j != k
      ensures Before(m, k, j)
    {
      if j != x && j != y {
        assert j in rest && Before(rest, y, j);
        if k == x { BeforeIsTransitive(m, x, y, j); }
      }
    }
  }

  lemma BeforeIsTransitive(m: map<Key, int>, a: Key, b: Key, c: Key)
    requires a in m && b in m && c in m && Before(m, a, b) && Before(m, b, c)
    ensures Before(m, a, c)
  {
    if m[a] == m[b] == m[c] { CanonicalJson.LessIsTransitive(a, b, c); }
  }

  /** The key that sorts first; the order is total, so there is just one. */
  function First(m: map<Key, int>): (k: Key)
    requires m != map[]
    ensures IsFirst(m, k)
  {
    FirstExists(m);
    FirstIsUnique(m);
    var k :| IsFirst(m, k);
    k
  }

  lemma FirstIsUnique(m: map<Key, int>)
    ensures forall j, k :: IsFirst(m, j) && IsFirst(m, k) ==> j == k
  {
    forall j, k | IsFirst(m, j) && IsFirst(m, k)
      ensures j == k
    {
      CanonicalJson.LessIsTotal(j, k);
    }
  }

  lemma RestIsSmaller(m: map<Key, int>, k: Key)
    requires k in m
    ensures |m - {k}| < |m|
  {
    assert (m - {k}).Keys == m.Keys - {k} && |m - {k}| == |(m - {k}).Keys| && |m| == |m.Keys|;
  }

  /** The keys in sort order. */
  function Ranked(m: map<Key, int>): (r: seq<Key>)
    ensures forall k :: k in r <==> k in m
    decreases |m|
  {
    if m == map[] then [] else
    var k := First(m);
    RestIsSmaller(m, k);
    [k] + Ranked(m - {k})
  }

  predicate Descends(m: map<Key, int>, r: seq<Key>) {
    && (forall i :: 0 <= i < |r| ==> r[i] in m)
    && (forall i, j :: 0 <= i < j < |r| ==> r[i] != r[j] && Before(m, r[i], r[j]))
  }

  lemma {:induction false} RankedDescends(m: map<Key, int>)
    ensures Descends(m, Ranked(m))
    decreases |m|
  {
    if m != map[] {
      var k := First(m);
      var less := m - {k};
      RestIsSmaller(m, k);
      RankedDescends(less);
      var rest := Ranked(less);
      forall j | 0 <= j < |rest|
        ensures rest[j] in m && rest[j] != k && Before(m, k, rest[j]) && less[rest[j]] == m[rest[j]]
      {
        assert rest[j] in less;
      }
      assert Ranked(m) == [k] + rest;
    }
  }

  function KeptKeys(m: map<Key, int>, cap: nat): (kept: seq<Key>)
    ensures forall k :: k in kept ==> k in m
  {
    var r := Ranked(m);
    assert forall k :: k in r[..if |r| > cap then cap else |r|] ==> k in r;
    if |r| > cap then r[..cap] else r
  }

  function Rebuilt(rows: seq<Row>, cooldownSec: int, now: int, cap: nat): Pairs {
    if cooldownSec <= 0 then map[] else
    var m := Fresh(rows, cooldownSec * 1000, now);
    var kept := KeptKeys(m, cap);
    map k | k in m && k in kept :: Entry(m[k], None)
  }

  /** The loop over the recipients of one row. */
  method AddRow(before: map<Key, int>, row: Row, windowMs: int, now: int) returns (ends: map<Key, int>)
    ensures ends == if Counts(row, windowMs, now) then LaterAll(before, row.to, row.sentAt.value + windowMs) else before
  {
    ends := before;
    if !row.autoReply || !(row.result == "queued" || (row.result == "failed" && row.failureKind == Some("smtp_response"))) { return; }
    if row.sentAt.None? || row.sentAt.value > now { return; }
    var until := row.sentAt.value + windowMs;
    if until <= now { return; }
    for j := 0 to |row.to|
      invariant ends == LaterAll(before, row.to[..j], until)
    {
      assert row.to[..j + 1][..j] == row.to[..j];
      if row.to[j] !in ends || until > ends[row.to[j]] { ends := ends[row.to[j] := until]; }
    }
    assert row.to[..|row.to|] == row.to;
  }

  /** rebuildAutoReplyCooldownFromRecords: its loops over the rows and the ranked pairs. */
  method Rebuild(t: CooldownTable, rows: seq<Row>, cooldownSec: int, now: int)
    modifies t`pairs
    ensures t.pairs == Rebuilt(rows, cooldownSec, now, t.cap)
  {
    t.pairs := map[];
    if cooldownSec <= 0 { return; }
    var ends: map<Key, int> := map[];
    for i := 0 to |rows|
      invariant ends == Fresh(rows[..i], cooldownSec * 1000, now) && t.pairs == map[]
    {
      assert rows[..i + 1][..i] == rows[..i];
      ends := AddRow(ends, rows[i], cooldownSec * 1000, now);
    }
    assert rows[..|rows|] == rows;
    Install(t, ends, KeptKeys(ends, t.cap));
  }

  method Install(t: CooldownTable, ends: map<Key, int>, kept: seq<Key>)
    requires t.pairs == map[] && forall k :: k in kept ==> k in ends
    modifies t`pairs
    ensures t.pairs == map k | k in ends && k in kept :: Entry(ends[k], None)
  {
    for i := 0 to |kept|
      invariant t.pairs == map k | k in ends && k in kept[..i] :: Entry(ends[k], None)
    {
      assert kept[..i + 1] == kept[..i] + [kept[i]];
      assert kept[i] in ends;
      t.pairs := t.pairs[kept[i] := Entry(ends[kept[i]], None)];
    }
    assert kept[..|kept|] == kept;
  }

  /** A row that counts names the pair, and its cooldown ends then. */
  predicate Says(r: Row, k: Key, until: int, windowMs: int, now: int) {
    Counts(r, windowMs, now) && k in r.to && until == r.sentAt.value + windowMs
  }

  lemma {:induction false} LaterAllIs(m: map<Key, int>, keys: seq<Key>, until: int, k: Key)
    ensures k in LaterAll(m, keys, until) <==> k in m || k in keys
    ensures k in LaterAll(m, keys, until) ==>
              LaterAll(m, keys, until)[k] == if k !in keys then m[k] else if k in m then Max(m[k], until) else until
  {
    if keys != [] {
      var init := keys[..|keys| - 1];
      assert keys == init + [keys[|keys| - 1]];
      LaterAllIs(m, init, until, k);
    }
  }

  /** The rebuilt ends are the latest that a counting row says. */
  lemma {:induction false} FreshIsLatest(rows: seq<Row>, windowMs: int, now: int, k: Key)
    ensures k in Fresh(rows, windowMs, now) ==> exists r :: r in rows && Says(r, k, Fresh(rows, windowMs, now)[k], windowMs, now)
    ensures forall r, until :: r in rows && Says(r, k, until, windowMs, now) ==> k in Fresh(rows, windowMs, now) && until <= Fresh(rows, windowMs, now)[k]
  {
    if rows != [] {
      var init, last := rows[..|rows| - 1], rows[|rows| - 1];
      assert rows == init + [last];
      FreshIsLatest(init, windowMs, now, k);
      var before := Fresh(init, windowMs, now);
      if Counts(last, windowMs, now) { LaterAllIs(before, last.to, last.sentAt.value + windowMs, k); }
      var after := Fresh(rows, windowMs, now);
      if k in after {
        if Counts(last, windowMs, now) && k in last.to && (k !in before || before[k] < last.sentAt.value + windowMs) {
          assert last in rows && Says(last, k, after[k], windowMs, now);
        } else {
          var r :| r in init && Says(r, k, before[k], windowMs, now);
          assert r in rows && after[k] == before[k];
        }
      }
    }
  }

  /** A rebuild does not depend on the order of the rows. */
  lemma RebuildIgnoresOrder(a: seq<Row>, b: seq<Row>, cooldownSec: int, now: int, cap: nat)
    requires multiset(a) == multiset(b)
    ensures Rebuilt(a, cooldownSec, now, cap) == Rebuilt(b, cooldownSec, now, cap)
  {
    var windowMs := cooldownSec * 1000;
    var fa, fb := Fresh(a, windowMs, now), Fresh(b, windowMs, now);
    assert forall r :: r in a <==> r in multiset(b);
    forall k: Key
      ensures (k in fa <==> k in fb) && (k in fa ==> fa[k] == fb[k])
    {
      FreshIsLatest(a, windowMs, now, k);
      FreshIsLatest(b, windowMs, now, k);
      SameLatest(a, b, windowMs, now, k);
    }
    assert fa == fb;
  }

  lemma SameLatest(a: seq<Row>, b: seq<Row>, windowMs: int, now: int, k: Key)
    requires forall r :: r in a <==> r in b
    ensures var fa, fb := Fresh(a, windowMs, now), Fresh(b, windowMs, now);
            (k in fa <==> k in fb) && (k in fa ==> fa[k] == fb[k])
  {
    FreshIsLatest(a, windowMs, now, k);
    FreshIsLatest(b, windowMs, now, k);
  }

  lemma RankedCount(m: map<Key, int>)
    ensures |Ranked(m)| == |m|
  {
    RankedDescends(m);
    DistinctCount(Ranked(m));
    assert (set k | k in Ranked(m)) == m.Keys;
    assert |m| == |m.Keys|;
  }

  lemma KeptCount(m: map<Key, int>, cap: nat)
    ensures |KeptKeys(m, cap)| == (if |m| <= cap then |m| else cap)
    ensures |(set k | k in KeptKeys(m, cap))| == |KeptKeys(m, cap)|
  {
    RankedCount(m);
    RankedDescends(m);
    var r, kept := Ranked(m), KeptKeys(m, cap);
    assert forall i :: 0 <= i < |kept| ==> kept[i] == r[i];
    DistinctCount(kept);
  }

  lemma KeptEndLast(m: map<Key, int>, cap: nat, k: Key, d: Key)
    requires k in KeptKeys(m, cap) && d in m && d !in KeptKeys(m, cap)
    ensures m[d] < m[k] || (m[d] == m[k] && CanonicalJson.Less(k, d))
  {
    RankedDescends(m);
    hide IsFirst, First;
    var r, kept := Ranked(m), KeptKeys(m, cap);
    assert d in r;
    var i :| 0 <= i < |kept| && kept[i] == k;
    var j :| 0 <= j < |r| && r[j] == d;
    assert forall i :: 0 <= i < |kept| ==> kept[i] == r[i];
    assert j >= |kept|;
    assert r[i] == k && i < j && m[r[i]] >= m[r[j]];
  }

  /** The rebuilt table is within its cap, and a pair it dropped ends earlier than one it kept, or
      at the same time and sorts after it. */
  lemma RebuildKeepsLatest(rows: seq<Row>, cooldownSec: int, now: int, cap: nat)
    requires cooldownSec > 0
    ensures var m := Fresh(rows, cooldownSec * 1000, now);
            var pairs := Rebuilt(rows, cooldownSec, now, cap);
            && |pairs| == (if |m| <= cap then |m| else cap)
            && (forall k :: k in pairs ==> k in m && pairs[k] == Entry(m[k], None))
            && (forall k, d :: k in pairs && d in m && d !in pairs ==> m[d] < m[k] || (m[d] == m[k] && CanonicalJson.Less(k, d)))
  {
    var m := Fresh(rows, cooldownSec * 1000, now);
    hide Fresh, KeptKeys, Ranked;
    KeptCount(m, cap);
    var pairs := Rebuilt(rows, cooldownSec, now, cap);
    assert pairs.Keys == set k | k in KeptKeys(m, cap);
    assert |pairs| == |pairs.Keys|;
    forall k, d | k in pairs && d in m && d !in pairs
      ensures m[d] < m[k] || (m[d] == m[k] && CanonicalJson.Less(k, d))
    {
      KeptEndLast(m, cap, k, d);
    }
  }

  /** With room for all, the rebuilt table blocks exactly the pairs that an answered automatic reply within
      the window names. */
  lemma RebuildBlocksExactly(rows: seq<Row>, cooldownSec: int, now: int, cap: nat, k: Key)
    requires cooldownSec > 0 && |Fresh(rows, cooldownSec * 1000, now)| <= cap
    ensures var live := DropExpired(Rebuilt(rows, cooldownSec, now, cap), now);
            Blocks(live, [k]) <==>
              exists r :: r in rows && k in r.to && r.autoReply && r.sentAt.Some?
                && (r.result == "queued" || (r.result == "failed" && r.failureKind == Some("smtp_response")))
                && r.sentAt.value <= now < r.sentAt.value + cooldownSec * 1000
  {
    var m := Fresh(rows, cooldownSec * 1000, now);
    var live := DropExpired(Rebuilt(rows, cooldownSec, now, cap), now);
    FreshIsLatest(rows, cooldownSec * 1000, now, k);
    RankedCount(m);
    assert k in KeptKeys(m, cap) <==> k in m;
    assert k in [k];
    if r :| r in rows && Counts(r, cooldownSec * 1000, now) && k in r.to {
      assert Says(r, k, r.sentAt.value + cooldownSec * 1000, cooldownSec * 1000, now);
      assert k in live;
    }
  }
}
