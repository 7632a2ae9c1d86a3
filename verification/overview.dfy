/** The overview snapshot cache (overview-cache.ts): one scan in flight at most, a deadline after which its
    result is not used, a cool-down after a failure, and bounds on the age of what is shown. */
module Overview {
  import opened Common

  datatype Times = Times(freshMs: int, staleMax: int, floor: int, cooldown: int)

  datatype FailureCode = ImapUnavailable | ScanTimeout

  /** A snapshot and the flight whose scan made it. */
  datatype Snapshot = Snapshot(scannedAt: int, flight: nat)

  datatype ScanError = ScanError(code: FailureCode, at: int)

  /** A flight is named by its generation. `exceeded` is set by its deadline, `landed` when its scan
      settled, `cleared` when its slot was given back, a moment later. */
  datatype Flight = Flight(startedAt: int, exceeded: bool, landed: bool, cleared: bool)

  /** Flight `g` is `flights[g - 1]`. */
  datatype State = State(snapshot: Option<Snapshot>, inFlight: Option<nat>, generation: nat, lastError: Option<ScanError>,
                         nextRetryAt: int, flights: seq<Flight>)

  const Empty := State(None, None, 0, None, 0, [])

  datatype Outcome =
    | Ready(now: int, snapshot: Option<Snapshot>, cached: bool, floored: bool)
    | Stale(now: int, shown: Snapshot, revalidating: bool, retryAfterMs: int)
    | Loading(now: int, retryAfterMs: int)
    | Unavailable(now: int, reason: FailureCode, retryAfterSeconds: int)

  /** The first half of a request either answers or waits for a flight. */
  datatype Reply = Now(outcome: Outcome) | Wait(flight: nat)

  // ------------------------------------------------------------------ the cache as a value

  function CeilSeconds(ms: int): int { (ms + 999) / 1000 }

  function RetrySeconds(s: State, now: int): int {
    if s.nextRetryAt > now then CeilSeconds(s.nextRetryAt - now) else 5
  }

  function Reason(s: State): FailureCode {
    if s.lastError.Some? then s.lastError.value.code else ImapUnavailable
  }

  /** ensureFlight: the one in flight, none while it cools down, or a new one. */
  function EnsureFlight(s: State, now: int): (State, Option<nat>) {
    if s.inFlight.Some? then (s, s.inFlight)
    else if now < s.nextRetryAt then (s, None)
    else
      var g := s.generation + 1;
      (s.(generation := g, inFlight := Some(g), flights := s.flights + [Flight(now, false, false, false)]), Some(g))
  }

  /** getOverview up to its wait. */
  function Ask(t: Times, s: State, refresh: bool, anyIdentity: bool, now: int): (State, Reply) {
    if !anyIdentity then (s, Now(Ready(now, None, false, false)))
    else if s.snapshot.Some? && !refresh && now - s.snapshot.value.scannedAt < t.freshMs then
      (s, Now(Ready(now, s.snapshot, true, false)))
    else if s.snapshot.Some? && refresh && now - s.snapshot.value.scannedAt < t.floor then
      (s, Now(Ready(now, s.snapshot, true, true)))
    else
      var (u, flight) := EnsureFlight(s, now);
      var cooldownMs := Max(0, u.nextRetryAt - now);
      if s.snapshot.Some? && now - s.snapshot.value.scannedAt <= t.staleMax then
        (u, Now(Stale(now, s.snapshot.value, flight.Some?, if flight.Some? then 1500 else Max(cooldownMs, 1500))))
      else if flight.None? then (u, Now(Unavailable(now, Reason(u), RetrySeconds(u, now))))
      else (u, Wait(flight.value))
  }

  /** getOverview after the flight it waited for settled; the clock is read again. */
  function Resume(t: Times, s: State, now: int): Outcome {
    if s.snapshot.Some? && now - s.snapshot.value.scannedAt < t.freshMs then Ready(now, s.snapshot, false, false)
    else if s.snapshot.Some? && now - s.snapshot.value.scannedAt <= t.staleMax then
      Stale(now, s.snapshot.value, s.inFlight.Some?, if s.nextRetryAt > now then s.nextRetryAt - now else 1500)
    else Unavailable(now, Reason(s), RetrySeconds(s, now))
  }

  predicate IsFlight(s: State, g: nat) { 0 < g <= |s.flights| }

  /** The wait for a flight ends: the response budget runs out first, or the flight has settled and its slot
      was given back. The first answer carries the time of the request. */
  function WaitOver(t: Times, s: State, g: nat, asked: int, now: int): Outcome
    requires IsFlight(s, g)
  {
    if !s.flights[g - 1].cleared then Loading(asked, 1000) else Resume(t, s, now)
  }

  function SetFlight(s: State, g: nat, f: Flight): State
    requires IsFlight(s, g)
  {
    s.(flights := s.flights[g - 1 := f])
  }

  function Fail(t: Times, s: State, code: FailureCode, at: int): State {
    s.(lastError := Some(ScanError(code, at)), nextRetryAt := at + t.cooldown)
  }

  /** The deadline timer of a flight. */
  function Deadline(t: Times, s: State, g: nat, at: int): State
    requires IsFlight(s, g)
  {
    Fail(t, SetFlight(s, g, s.flights[g - 1].(exceeded := true)), ScanTimeout, at)
  }

  /** The scan of a flight settles: a late result is not used, and neither is one of an old generation. */
  function Land(t: Times, s: State, g: nat, ok: bool, at: int): State
    requires IsFlight(s, g)
  {
    var f := s.flights[g - 1];
    var u := SetFlight(s, g, f.(landed := true));
    if f.exceeded then u
    else if !ok then Fail(t, u, ImapUnavailable, at)
    else if g != s.generation then u
    else u.(snapshot := Some(Snapshot(at, g)), lastError := None, nextRetryAt := 0)
  }

  /** The slot is given back only after the scan has settled. */
  function Clear(s: State, g: nat): State
    requires IsFlight(s, g)
  {
    var u := SetFlight(s, g, s.flights[g - 1].(cleared := true));
    if s.inFlight == Some(g) then u.(inFlight := None) else u
  }

  // ------------------------------------------------------------------ runs

  datatype Event = Request(refresh: bool, anyIdentity: bool) | TimeUp(g: nat) | Settle(g: nat, ok: bool) | GiveBack(g: nat)

  /** Timers and promises: a deadline fires at most once and only before the scan settles, a scan settles
      once, and its slot is given back once, after that. */
  predicate Enabled(s: State, e: Event) {
    match e
    case Request(_, _) => true
    case TimeUp(g) => IsFlight(s, g) && !s.flights[g - 1].landed && !s.flights[g - 1].exceeded
    case Settle(g, _) => IsFlight(s, g) && !s.flights[g - 1].landed
    case GiveBack(g) => IsFlight(s, g) && s.flights[g - 1].landed && !s.flights[g - 1].cleared
  }

  datatype World = World(s: State, clock: int)

  const Start := World(Empty, 0)

  datatype Timed = Timed(wait: nat, e: Event)

  function Step(t: Times, w: World, d: Timed): World
    requires Enabled(w.s, d.e)
  {
    var now := w.clock + d.wait;
    World(match d.e
          case Request(refresh, anyIdentity) => Ask(t, w.s, refresh, anyIdentity, now).0
          case TimeUp(g) => Deadline(t, w.s, g, now)
          case Settle(g, ok) => Land(t, w.s, g, ok, now)
          case GiveBack(g) => Clear(w.s, g), now)
  }

  predicate Possible(t: Times, w: World, events: seq<Timed>)
    decreases |events|
  {
    events == [] || (Enabled(w.s, events[0].e) && Possible(t, Step(t, w, events[0]), events[1..]))
  }

  function Run(t: Times, w: World, events: seq<Timed>): World
    requires Possible(t, w, events)
    decreases |events|
  {
    if events == [] then w else Run(t, Step(t, w, events[0]), events[1..])
  }

  predicate FlightOk(s: State, clock: int, g: nat)
    requires IsFlight(s, g)
  {
    var f := s.flights[g - 1];
    (!f.cleared ==> s.inFlight == Some(g)) && (f.cleared ==> f.landed) && f.startedAt <= clock
  }

  /** A snapshot comes from a flight that settled and made its deadline. */
  predicate SnapshotOk(s: State, n: Snapshot) {
    IsFlight(s, n.flight) && s.flights[n.flight - 1].landed && !s.flights[n.flight - 1].exceeded && s.flights[n.flight - 1].startedAt <= n.scannedAt
  }

  /** One flight is open and it is the newest; the cool-down dates from the last failure. */
  ghost predicate Inv(t: Times, w: World) {
    var s := w.s;
    && s.generation == |s.flights| && w.clock >= 0
    && (forall g: nat :: IsFlight(s, g) ==> FlightOk(s, w.clock, g))
    && (s.inFlight.Some? ==> IsFlight(s, s.inFlight.value) && s.inFlight.value == s.generation && !s.flights[s.inFlight.value - 1].cleared)
    && (s.lastError.Some? ==> s.nextRetryAt == s.lastError.value.at + t.cooldown && s.lastError.value.at <= w.clock)
    && (s.lastError.None? ==> s.nextRetryAt == 0)
    && (s.snapshot.Some? ==> SnapshotOk(s, s.snapshot.value) && s.snapshot.value.scannedAt <= w.clock)
    && (forall g: nat :: IsFlight(s, g) && HasEnded(s, g) ==> s.snapshot.Some? || s.lastError.Some?)
  }

  /** A flight that settled or missed its deadline has left a snapshot or a failure behind. */
  predicate HasEnded(s: State, g: nat)
    requires IsFlight(s, g)
  {
    s.flights[g - 1].landed || s.flights[g - 1].exceeded
  }

  lemma AskKeepsInv(t: Times, w: World, refresh: bool, anyIdentity: bool, now: int)
    requires Inv(t, w) && now >= w.clock
    ensures Inv(t, World(Ask(t, w.s, refresh, anyIdentity, now).0, now))
  {
    var u := Ask(t, w.s, refresh, anyIdentity, now).0;
    forall g: nat | IsFlight(u, g)
      ensures FlightOk(u, now, g) && (HasEnded(u, g) ==> IsFlight(w.s, g) && HasEnded(w.s, g))
    {
      if g <= |w.s.flights| { assert FlightOk(w.s, w.clock, g); }
    }
  }

  lemma TimeUpKeepsInv(t: Times, w: World, g: nat, now: int)
    requires Inv(t, w) && now >= w.clock && Enabled(w.s, TimeUp(g))
    ensures Inv(t, World(Deadline(t, w.s, g, now), now))
  {
    var u := Deadline(t, w.s, g, now);
    forall h: nat | IsFlight(u, h)
      ensures FlightOk(u, now, h)
    {
      assert FlightOk(w.s, w.clock, h);
    }
  }

  lemma SettleKeepsInv(t: Times, w: World, g: nat, ok: bool, now: int)
    requires Inv(t, w) && now >= w.clock && Enabled(w.s, Settle(g, ok))
    ensures Inv(t, World(Land(t, w.s, g, ok, now), now))
  {
    var u := Land(t, w.s, g, ok, now);
    assert FlightOk(w.s, w.clock, g);
    forall h: nat | IsFlight(u, h)
      ensures FlightOk(u, now, h)
    {
      assert FlightOk(w.s, w.clock, h);
    }
  }

  lemma GiveBackKeepsInv(t: Times, w: World, g: nat, now: int)
    requires Inv(t, w) && now >= w.clock && Enabled(w.s, GiveBack(g))
    ensures Inv(t, World(Clear(w.s, g), now))
  {
    var u := Clear(w.s, g);
    assert FlightOk(w.s, w.clock, g);
    forall h: nat | IsFlight(u, h)
      ensures FlightOk(u, now, h)
    {
      assert FlightOk(w.s, w.clock, h);
    }
  }

  lemma StepKeepsInv(t: Times, w: World, d: Timed)
    requires Inv(t, w) && Enabled(w.s, d.e)
    ensures Inv(t, Step(t, w, d))
  {
    hide Inv, Ask, Deadline, Land, Clear;
    var now := w.clock + d.wait;
    match d.e
    case Request(refresh, anyIdentity) => AskKeepsInv(t, w, refresh, anyIdentity, now);
    case TimeUp(g) => TimeUpKeepsInv(t, w, g, now);
    case Settle(g, ok) => SettleKeepsInv(t, w, g, ok, now);
    case GiveBack(g) => GiveBackKeepsInv(t, w, g, now);
  }

  lemma {:induction false} RunKeepsInv(t: Times, w: World, events: seq<Timed>)
    requires Inv(t, w) && Possible(t, w, events)
    ensures Inv(t, Run(t, w, events))
    decreases |events|
  {
    hide Inv, Enabled;
    if events != [] {
      StepKeepsInv(t, w, events[0]);
      RunKeepsInv(t, Step(t, w, events[0]), events[1..]);
    }
  }

  lemma ReachedIsOk(t: Times, events: seq<Timed>)
    requires Possible(t, Start, events)
    ensures Inv(t, Run(t, Start, events))
  {
    RunKeepsInv(t, Start, events);
  }

  // ------------------------------------------------------------------ the main results

  predicate IsOpen(s: State, g: nat) { IsFlight(s, g) && !s.flights[g - 1].cleared }

  /** In every interleaving at most one scan is in flight, and a request starts one only when none is and
      the last failure is a whole cool-down ago. */
  lemma OneFlightOutsideCooldown(t: Times, events: seq<Timed>, refresh: bool, anyIdentity: bool, wait: nat)
    requires Possible(t, Start, events)
    ensures var w := Run(t, Start, events);
            var now := w.clock + wait;
            var u := Ask(t, w.s, refresh, anyIdentity, now).0;
            && (forall g: nat, h: nat :: IsOpen(w.s, g) && IsOpen(w.s, h) ==> g == h)
            && (|u.flights| > |w.s.flights| ==>
                  && (forall g: nat :: !IsOpen(w.s, g))
                  && (w.s.lastError.Some? ==> now >= w.s.lastError.value.at + t.cooldown))
  {
    ReachedIsOk(t, events);
    var w := Run(t, Start, events);
    forall g: nat | IsOpen(w.s, g)
      ensures w.s.inFlight == Some(g)
    {
      assert FlightOk(w.s, w.clock, g);
    }
  }

  /** A scan that settles after its deadline changes neither the snapshot nor the recorded failure; one
      that makes it always finds its own generation current, so the generation check rejects nothing. */
  lemma LateResultsAreDropped(t: Times, events: seq<Timed>, g: nat, ok: bool, wait: nat)
    requires Possible(t, Start, events) && Enabled(Run(t, Start, events).s, Settle(g, ok))
    ensures var w := Run(t, Start, events);
            var now := w.clock + wait;
            var u := Land(t, w.s, g, ok, now);
            && g == w.s.generation
            && (w.s.flights[g - 1].exceeded ==> u.snapshot == w.s.snapshot && u.lastError == w.s.lastError && u.nextRetryAt == w.s.nextRetryAt)
            && (!w.s.flights[g - 1].exceeded && ok ==> u.snapshot == Some(Snapshot(now, g)) && u.lastError.None?)
            && (w.s.snapshot.Some? ==> SnapshotOk(w.s, w.s.snapshot.value))
  {
    ReachedIsOk(t, events);
    var w := Run(t, Start, events);
    assert FlightOk(w.s, w.clock, g);
  }

  /** After any run, a scan that fails in time, and one whose deadline passes, leave the snapshot as it was, record
      the failure on the spot and start the cool-down from then. */
  lemma FailuresAreRecorded(t: Times, events: seq<Timed>, g: nat, wait: nat)
    requires Possible(t, Start, events)
    ensures var w := Run(t, Start, events);
            var at := w.clock + wait;
            && (Enabled(w.s, Settle(g, false)) && !w.s.flights[g - 1].exceeded ==>
                  var u := Step(t, w, Timed(wait, Settle(g, false))).s;
                  u.snapshot == w.s.snapshot && u.lastError == Some(ScanError(ImapUnavailable, at)) && u.nextRetryAt == at + t.cooldown)
            && (Enabled(w.s, TimeUp(g)) ==>
                  var u := Step(t, w, Timed(wait, TimeUp(g))).s;
                  u.snapshot == w.s.snapshot && u.lastError == Some(ScanError(ScanTimeout, at)) && u.nextRetryAt == at + t.cooldown)
  {
  }

  lemma StepKeepsExceeded(t: Times, w: World, d: Timed, g: nat)
    requires Enabled(w.s, d.e) && IsFlight(w.s, g) && w.s.flights[g - 1].exceeded
    ensures IsFlight(Step(t, w, d).s, g) && Step(t, w, d).s.flights[g - 1].exceeded
  {
  }

  lemma {:induction false} RunKeepsExceeded(t: Times, w: World, events: seq<Timed>, g: nat)
    requires Possible(t, w, events) && IsFlight(w.s, g) && w.s.flights[g - 1].exceeded
    ensures IsFlight(Run(t, w, events).s, g) && Run(t, w, events).s.flights[g - 1].exceeded
    decreases |events|
  {
    hide Enabled, Step;
    if events != [] {
      StepKeepsExceeded(t, w, events[0], g);
      RunKeepsExceeded(t, Step(t, w, events[0]), events[1..], g);
    }
  }

  /** Once the deadline of a scan has passed, its result is never used: whatever happens in between, and however it
      settles, the snapshot, the failure and the cool-down stay as they are. */
  lemma DeadlineIsFinal(t: Times, before: seq<Timed>, g: nat, wait: nat, after: seq<Timed>, ok: bool, later: nat)
    requires Possible(t, Start, before) && Enabled(Run(t, Start, before).s, TimeUp(g))
    requires var w := Step(t, Run(t, Start, before), Timed(wait, TimeUp(g)));
             Possible(t, w, after) && Enabled(Run(t, w, after).s, Settle(g, ok))
    ensures var v := Run(t, Step(t, Run(t, Start, before), Timed(wait, TimeUp(g))), after);
            var u := Step(t, v, Timed(later, Settle(g, ok))).s;
            u.snapshot == v.s.snapshot && u.lastError == v.s.lastError && u.nextRetryAt == v.s.nextRetryAt
  {
    var w := Step(t, Run(t, Start, before), Timed(wait, TimeUp(g)));
    RunKeepsExceeded(t, w, after, g);
  }

  /** What an outcome may show. */
  predicate ShowsOnlyYoung(t: Times, o: Outcome) {
    match o
    case Ready(now, snapshot, _, _) => snapshot.Some? ==> now - snapshot.value.scannedAt < t.freshMs
    case Stale(now, shown, _, _) => now - shown.scannedAt <= t.staleMax
    case _ => true
  }

  /** How a request is answered, in terms of the age of the snapshot and the limits alone. A snapshot young enough
      for the kind of request is shown at once, and the cache is left as it is. Any other request starts a scan
      exactly when none is in flight and the cool-down is over; it shows a snapshot within the hard limit, waits
      if there is none but a scan is in flight, and is refused otherwise. */
  lemma RequestIsAnsweredExactly(t: Times, s: State, refresh: bool, anyIdentity: bool, now: int)
    ensures var (u, r) := Ask(t, s, refresh, anyIdentity, now);
            var young := s.snapshot.Some? && now - s.snapshot.value.scannedAt < if refresh then t.floor else t.freshMs;
            var shown := s.snapshot.Some? && now - s.snapshot.value.scannedAt <= t.staleMax;
            && (r.Now? && r.outcome.Ready? <==> !anyIdentity || young)
            && (!anyIdentity || young ==>
                  u == s && r.outcome == Ready(now, if anyIdentity then s.snapshot else None, anyIdentity, anyIdentity && refresh))
            && (|u.flights| > |s.flights| <==> anyIdentity && !young && s.inFlight.None? && now >= s.nextRetryAt)
            && (|u.flights| > |s.flights| ==>
                  u == s.(generation := s.generation + 1, inFlight := Some(s.generation + 1), flights := s.flights + [Flight(now, false, false, false)]))
            && (|u.flights| <= |s.flights| ==> u == s)
            && (anyIdentity && !young ==>
                  if shown then
                    r == Now(Stale(now, s.snapshot.value, u.inFlight.Some?, if u.inFlight.Some? then 1500 else Max(s.nextRetryAt - now, 1500)))
                  else if u.inFlight.Some? then r == Wait(u.inFlight.value)
                  else r.Now? && IsRefusal(s, r.outcome, now))
  {
  }

  /** A refusal names the last failure, and the least number of seconds that covers the cool-down, or five. */
  predicate IsRefusal(s: State, o: Outcome, now: int) {
    && o.Unavailable? && o.now == now
    && o.reason == (if s.lastError.Some? then s.lastError.value.code else ImapUnavailable)
    && if s.nextRetryAt > now then (o.retryAfterSeconds - 1) * 1000 < s.nextRetryAt - now <= o.retryAfterSeconds * 1000 else o.retryAfterSeconds == 5
  }

  /** How a wait ends: with what the flight left, in terms of the age of the snapshot at that time. */
  lemma WaitEndsExactly(t: Times, s: State, g: nat, asked: int, now: int)
    requires IsFlight(s, g)
    ensures var o := WaitOver(t, s, g, asked, now);
            var age := if s.snapshot.Some? then now - s.snapshot.value.scannedAt else 0;
            && (o.Loading? <==> !s.flights[g - 1].cleared)
            && (o.Ready? <==> s.flights[g - 1].cleared && s.snapshot.Some? && age < t.freshMs)
            && (o.Ready? ==> o.snapshot == s.snapshot && !o.cached && !o.floored)
            && (o.Stale? <==> s.flights[g - 1].cleared && s.snapshot.Some? && t.freshMs <= age <= t.staleMax)
            && (o.Loading? ==> o == Loading(asked, 1000))
            && (o.Ready? ==> o.now == now)
            && (o.Stale? ==>
                  o == Stale(now, s.snapshot.value, s.inFlight.Some?, if s.nextRetryAt > now then s.nextRetryAt - now else 1500))
            && (o.Unavailable? ==> IsRefusal(s, o, now))
  {
  }

  /** After any run, a scan that settles in time is shown by every request of the next moments that does not
      force another, without a new scan; and by a request that waited for it. */
  lemma FreshScanIsShown(t: Times, events: seq<Timed>, g: nat, wait: nat, later: nat, asked: int)
    requires Possible(t, Start, events) && Enabled(Run(t, Start, events).s, Settle(g, true)) && later < t.freshMs
    requires !Run(t, Start, events).s.flights[g - 1].exceeded
    ensures var w := Step(t, Run(t, Start, events), Timed(wait, Settle(g, true)));
            var n := Snapshot(w.clock, g);
            && Ask(t, w.s, false, true, w.clock + later) == (w.s, Now(Ready(w.clock + later, Some(n), true, false)))
            && (Enabled(w.s, GiveBack(g)) ==>
                  var v := Step(t, w, Timed(0, GiveBack(g)));
                  WaitOver(t, v.s, g, asked, v.clock + later) == Ready(v.clock + later, Some(n), false, false))
  {
    LateResultsAreDropped(t, events, g, true, wait);
  }

  /** What a request made after these events shows at once. */
  ghost predicate AskShowsYoung(t: Times, events: seq<Timed>, refresh: bool, anyIdentity: bool, wait: nat) {
    Possible(t, Start, events) ==>
      var w := Run(t, Start, events);
      var r := Ask(t, w.s, refresh, anyIdentity, w.clock + wait).1;
      r.Now? ==> ShowsOnlyYoung(t, r.outcome)
  }

  /** After any run, everything shown as ready is fresh and everything shown as stale within the hard limit,
      at once and after a wait for any flight. */
  lemma AgesAreBounded(t: Times, events: seq<Timed>, refresh: bool, anyIdentity: bool, g: nat, asked: int, wait: nat)
    requires t.floor <= Max(t.freshMs, 0) && Possible(t, Start, events)
    ensures AskShowsYoung(t, events, refresh, anyIdentity, wait)
    ensures var w := Run(t, Start, events);
            IsFlight(w.s, g) ==> ShowsOnlyYoung(t, WaitOver(t, w.s, g, asked, w.clock + wait))
  {
    ReachedIsOk(t, events);
  }

  /** The condition on the refresh floor is exact: otherwise a scan, and a forced refresh when it is no
      longer fresh, show an old snapshot as ready. */
  lemma AgesNeedTheFloor(t: Times)
    ensures t.floor <= Max(t.freshMs, 0) <==>
            forall events, refresh, anyIdentity, wait: nat :: AskShowsYoung(t, events, refresh, anyIdentity, wait)
  {
    if t.floor <= Max(t.freshMs, 0) {
      forall events, refresh, anyIdentity, wait: nat
        ensures AskShowsYoung(t, events, refresh, anyIdentity, wait)
      {
        if Possible(t, Start, events) { AgesAreBounded(t, events, refresh, anyIdentity, 0, 0, wait); }
      }
    } else {
      OldSnapshotIsShown(t);
    }
  }

  lemma OldSnapshotIsShown(t: Times)
    requires t.floor > Max(t.freshMs, 0)
    ensures var events := [Timed(0, Request(false, true)), Timed(0, Settle(1, true)), Timed(0, GiveBack(1))];
            !AskShowsYoung(t, events, true, true, Max(t.freshMs, 0))
  {
    var e0, e1, e2 := Timed(0, Request(false, true)), Timed(0, Settle(1, true)), Timed(0, GiveBack(1));
    var w1 := Step(t, Start, e0);
    assert w1 == World(State(None, Some(1), 1, None, 0, [Flight(0, false, false, false)]), 0);
    var w2 := Step(t, w1, e1);
    assert w2 == World(State(Some(Snapshot(0, 1)), Some(1), 1, None, 0, [Flight(0, false, true, false)]), 0);
    var w3 := Step(t, w2, e2);
    assert w3 == World(State(Some(Snapshot(0, 1)), None, 1, None, 0, [Flight(0, false, true, true)]), 0);
    assert [e2][1..] == [] && [e1, e2][1..] == [e2] && [e0, e1, e2][1..] == [e1, e2];
    hide Step;
    assert Run(t, w3, []) == w3;
    assert Possible(t, w2, [e2]) && Run(t, w2, [e2]) == w3;
    assert Possible(t, w1, [e1, e2]) && Run(t, w1, [e1, e2]) == w3;
    assert Possible(t, Start, [e0, e1, e2]) && Run(t, Start, [e0, e1, e2]) == w3;
  }

  /** What a reply says about the cache at that moment. */
  predicate Honest(t: Times, s: State, o: Outcome) {
    match o
    case Ready(_, shown, _, _) => shown.Some? ==> s.snapshot == shown
    case Stale(now, shown, revalidating, retryAfterMs) =>
      s.snapshot == Some(shown) && (revalidating ==> s.inFlight.Some? && IsOpen(s, s.inFlight.value))
      && (!revalidating ==> now + retryAfterMs >= s.nextRetryAt)
    case Loading(_, _) => s.inFlight.Some? && IsOpen(s, s.inFlight.value)
    case Unavailable(now, reason, retryAfterSeconds) =>
      now + retryAfterSeconds * 1000 >= s.nextRetryAt
      && (s.lastError.Some? ==> reason == s.lastError.value.code)
      && (s.lastError.None? ==> s.snapshot.Some? && now - s.snapshot.value.scannedAt > t.staleMax)
      && (s.snapshot.Some? ==> now - s.snapshot.value.scannedAt > t.staleMax)
  }

  /** Replies are honest, at once and after a wait: the retry time of a refusal covers the whole cool-down and
      its reason is the last failure, or there was none since a scan that is now too old to show; a reply that
      claims to revalidate or to be loading has a scan in flight; a request waits only for an open flight, and
      one refused at once is refused within the cool-down. */
  lemma RepliesAreHonest(t: Times, events: seq<Timed>, refresh: bool, anyIdentity: bool, g: nat, asked: int, wait: nat)
    requires Possible(t, Start, events)
    ensures var w := Run(t, Start, events);
            var now := w.clock + wait;
            var (u, r) := Ask(t, w.s, refresh, anyIdentity, now);
            && (if r.Wait? then IsOpen(u, r.flight) else Honest(t, u, r.outcome))
            && (r.Now? && r.outcome.Unavailable? ==> u.nextRetryAt > now && u.lastError.Some?)
            && (IsFlight(w.s, g) ==> Honest(t, w.s, WaitOver(t, w.s, g, asked, now)))
  {
    hide Inv, Ask, WaitOver, Honest;
    ReachedIsOk(t, events);
    var w := Run(t, Start, events);
    AskIsHonest(t, w, refresh, anyIdentity, w.clock + wait);
    if IsFlight(w.s, g) { WaitIsHonest(t, w, g, asked, w.clock + wait); }
  }

  lemma AskIsHonest(t: Times, w: World, refresh: bool, anyIdentity: bool, now: int)
    requires Inv(t, w) && now >= w.clock
    ensures var (u, r) := Ask(t, w.s, refresh, anyIdentity, now);
            && (if r.Wait? then IsOpen(u, r.flight) else Honest(t, u, r.outcome))
            && (r.Now? && r.outcome.Unavailable? ==> u.nextRetryAt > now && u.lastError.Some?)
  {
    AskKeepsInv(t, w, refresh, anyIdentity, now);
  }

  lemma WaitIsHonest(t: Times, w: World, g: nat, asked: int, now: int)
    requires Inv(t, w) && now >= w.clock && IsFlight(w.s, g)
    ensures Honest(t, w.s, WaitOver(t, w.s, g, asked, now))
  {
    assert FlightOk(w.s, w.clock, g) && (w.s.flights[g - 1].cleared ==> HasEnded(w.s, g));
  }

  // ------------------------------------------------------------------ the cache object

  /** The closed-over state of the source and the callbacks that change it. */
  class OverviewCache {
    var snapshot: Option<Snapshot>
    var inFlight: Option<nat>
    var generation: nat
    var lastError: Option<ScanError>
    var nextRetryAt: int
    var flights: seq<Flight>
    const times: Times

    constructor (times: Times)
      ensures Value() == Empty && this.times == times
    {
      snapshot, inFlight, generation, lastError, nextRetryAt, flights := None, None, 0, None, 0, [];
      this.times := times;
    }

    ghost function Value(): State
      reads this
    {
      State(snapshot, inFlight, generation, lastError, nextRetryAt, flights)
    }

    method StartFlight(now: int) returns (flight: Option<nat>)
      modifies this
      ensures (Value(), flight) == EnsureFlight(old(Value()), now)
    {
      if inFlight.Some? { return inFlight; }
      if now < nextRetryAt { return None; }
      generation := generation + 1;
      flights := flights + [Flight(now, false, false, false)];
      inFlight := Some(generation);
      return inFlight;
    }

    method GetOverview(refresh: bool, anyIdentity: bool, now: int) returns (r: Reply)
      modifies this
      ensures (Value(), r) == Ask(times, old(Value()), refresh, anyIdentity, now)
    {
      if !anyIdentity { return Now(Ready(now, None, false, false)); }
      var before := snapshot;
      if before.Some? && !refresh && now - before.value.scannedAt < times.freshMs { return Now(Ready(now, before, true, false)); }
      if before.Some? && refresh && now - before.value.scannedAt < times.floor { return Now(Ready(now, before, true, true)); }
      var flight := StartFlight(now);
      var cooldownMs := Max(0, nextRetryAt - now);
      if before.Some? && now - before.value.scannedAt <= times.staleMax {
        return Now(Stale(now, before.value, flight.Some?, if flight.Some? then 1500 else Max(cooldownMs, 1500)));
      }
      if flight.None? {
        var reason := if lastError.Some? then lastError.value.code else ImapUnavailable;
        return Now(Unavailable(now, reason, if cooldownMs > 0 then CeilSeconds(cooldownMs) else 5));
      }
      return Wait(flight.value);
    }

    /** The rest of getOverview, when the wait is over. */
    method AfterWait(g: nat, asked: int, now: int) returns (o: Outcome)
      requires IsFlight(Value(), g)
      ensures o == WaitOver(times, Value(), g, asked, now)
    {
      if !flights[g - 1].cleared { return Loading(asked, 1000); }
      if snapshot.Some? && now - snapshot.value.scannedAt < times.freshMs { return Ready(now, snapshot, false, false); }
      var cooldownMs := Max(0, nextRetryAt - now);
      if snapshot.Some? && now - snapshot.value.scannedAt <= times.staleMax {
        return Stale(now, snapshot.value, inFlight.Some?, if cooldownMs != 0 then cooldownMs else 1500);
      }
      var reason := if lastError.Some? then lastError.value.code else ImapUnavailable;
      return Unavailable(now, reason, if cooldownMs > 0 then CeilSeconds(cooldownMs) else 5);
    }

    method OnDeadline(g: nat, at: int)
      requires IsFlight(Value(), g)
      modifies this
      ensures Value() == Deadline(times, old(Value()), g, at)
    {
      flights := flights[g - 1 := flights[g - 1].(exceeded := true)];
      lastError := Some(ScanError(ScanTimeout, at));
      nextRetryAt := at + times.cooldown;
    }

    method OnSettled(g: nat, ok: bool, at: int)
      requires IsFlight(Value(), g)
      modifies this
      ensures Value() == Land(times, old(Value()), g, ok, at)
    {
      flights := flights[g - 1 := flights[g - 1].(landed := true)];
      if flights[g - 1].exceeded { return; }
      if ok {
        if g != generation { return; }
        snapshot := Some(Snapshot(at, g));
        lastError := None;
        nextRetryAt := 0;
      } else {
        lastError := Some(ScanError(ImapUnavailable, at));
        nextRetryAt := at + times.cooldown;
      }
    }

    method OnFinally(g: nat)
      requires IsFlight(Value(), g)
      modifies this
      ensures Value() == Clear(old(Value()), g)
    {
      flights := flights[g - 1 := flights[g - 1].(cleared := true)];
      if inFlight == Some(g) { inFlight := None; }
    }
  }
}
