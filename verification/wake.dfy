/** The wake pipeline of one service process (handleVerifiedMail in server.ts) over the dedup store:
    requests share one flight per event key, flights of one seat run one at a time, and the process or
    the machine may stop anywhere, also inside a store operation. */
module Wake {
  import opened Common
  import opened Dedup

  type Seat = string

  datatype Config = Config(maxRecords: nat, retention: nat)

  /** How far the flight of one key has come. */
  datatype Stage =
    | Fresh              // before the first lookup
    | Queued             // waiting for its seat
    | Seated             // has the seat, before the second lookup
    | Checked            // the second lookup found nothing
    | Reserved           // holds a capacity slot, before the wake
    | Woken(at: int)     // the wake succeeded, the commit has not run yet
    | Releasing          // gives its slot back and ends

  datatype Flight = Flight(seat: Seat, stage: Stage)

  /** What an observer outside the process sees: wakes, and the two ways a wake can go unrecorded. */
  datatype Mark = Woke(key: Key, at: int) | CommitFailed(key: Key) | Stopped(uncommitted: set<Key>)

  /** `acked` holds, per key, the entry last acknowledged to a caller: returned by `get`, or stored by
      a `commit` that returned normally. */
  datatype System = System(
    dir: Dir, reserved: set<Key>, flights: map<Key, Flight>, seats: map<Seat, Key>,
    now: int, log: seq<Mark>, acked: map<Key, Entry>)

  function Start(now: int): System {
    System(Dir([EmptyFile], [false]), {}, map[], map[], now, [], map[])
  }

  datatype Event =
    | Arrive(key: Key, seat: Seat)
    | FirstGet(key: Key, p: Plan)
    | Enter(key: Key)
    | Abandon(key: Key)
    | SecondGet(key: Key, p: Plan)
    | Unwritable(key: Key)
    | Reserve(key: Key, p: Plan)
    | Send(key: Key, ok: bool)
    | Observe(key: Key, p: Plan)
    | Commit(key: Key, p: Plan)
    | Release(key: Key)
    | Kill
    | LosePower(i: nat, j: nat)
    | Tick(elapsed: nat)

  predicate At(s: System, key: Key, stage: Stage) {
    key in s.flights && s.flights[key].stage == stage
  }

  function Move(s: System, key: Key, stage: Stage): System
    requires key in s.flights
  {
    s.(flights := s.flights[key := s.flights[key].(stage := stage)])
  }

  /** The flight settles: it leaves the sharing table and its seat. */
  function End(s: System, key: Key): System {
    s.(flights := s.flights - {key}, seats := map seat | seat in s.seats && s.seats[seat] != key :: s.seats[seat])
  }

  function Uncommitted(s: System): set<Key> {
    set key | key in s.flights && s.flights[key].stage.Woken?
  }

  /** Memory is gone; the directory stays as it is. */
  function Stop(s: System): System {
    s.(reserved := {}, flights := map[], seats := map[], log := s.log + [Stopped(Uncommitted(s))])
  }

  function LookUp(s: System, key: Key, p: Plan, next: Stage): System
    requires key in s.flights
  {
    var a := GetStep(s.dir, s.reserved, key, s.now, p);
    var t := s.(dir := a.dir);
    match a.out.fate
    case Died => Stop(t)
    case Threw => End(t, key)
    case Ran =>
      if a.out.hit.Some? then End(t.(acked := t.acked[key := a.out.hit.value]), key) else Move(t, key, next)
  }

  function EntryNow(c: Config, s: System, success: bool): Entry { Entry(success, s.now, s.now + c.retention) }

  /** How the flight reacts to what `commit` did. */
  function Settle(c: Config, s: System, key: Key, success: bool, a: After<Outcome>): System
    requires key in s.flights
  {
    var t := s.(dir := a.dir, reserved := a.reserved);
    if a.out == Stored then End(t.(acked := t.acked[key := EntryNow(c, s, success)]), key)
    else if a.out == Failed(Died) then Stop(t)
    else Move(if success then t.(log := t.log + [CommitFailed(key)]) else t, key, Releasing)
  }

  function Store(c: Config, s: System, key: Key, p: Plan, success: bool): System
    requires key in s.flights
  {
    Settle(c, s, key, success, CommitStep(s.dir, s.reserved, key, EntryNow(c, s, success), s.now, c.maxRecords, p))
  }

  /** How the flight reacts to what `reserveCapacity` did. */
  function Admit(s: System, key: Key, a: After<Outcome>): System
    requires key in s.flights
  {
    var t := s.(dir := a.dir, reserved := a.reserved);
    if a.out == Stored then Move(t, key, Reserved) else if a.out == Failed(Died) then Stop(t) else End(t, key)
  }

  /** One step; an event that is not enabled changes nothing. */
  function Step(c: Config, s: System, e: Event): System
  {
    match e
    case Arrive(key, seat) =>
      if key in s.flights then s else s.(flights := s.flights[key := Flight(seat, Fresh)])
    case FirstGet(key, p) => if At(s, key, Fresh) then LookUp(s, key, p, Queued) else s
    case Enter(key) =>
      if At(s, key, Queued) && s.flights[key].seat !in s.seats
      then Move(s.(seats := s.seats[s.flights[key].seat := key]), key, Seated) else s
    case Abandon(key) => if At(s, key, Queued) then End(s, key) else s
    case SecondGet(key, p) => if At(s, key, Seated) then LookUp(s, key, p, Checked) else s
    case Unwritable(key) => if At(s, key, Checked) then End(s, key) else s
    case Reserve(key, p) =>
      if At(s, key, Checked) then Admit(s, key, ReserveStep(s.dir, s.reserved, key, s.now, c.maxRecords, p)) else s
    case Send(key, ok) =>
      if !At(s, key, Reserved) then s
      else if ok then Move(s.(log := s.log + [Woke(key, s.now)]), key, Woken(s.now))
      else Move(s, key, Releasing)
    case Observe(key, p) => if At(s, key, Reserved) then Store(c, s, key, p, false) else s
    case Commit(key, p) =>
      if key in s.flights && s.flights[key].stage.Woken? then Store(c, s, key, p, true) else s
    case Release(key) =>
      if At(s, key, Releasing) then End(s.(reserved := s.reserved - {key}), key) else s
    case Kill => Stop(s)
    case LosePower(i, j) =>
      if i < |s.dir.data| && j < |s.dir.marker| then Stop(s.(dir := PowerLoss(s.dir, i, j))) else s
    case Tick(elapsed) => s.(now := s.now + elapsed)
  }

  // ------------------------------------------------------------------ what every run keeps

  /** Every image a power loss could leave keeps `key` at least until `until`. */
  ghost predicate Keeps(d: Dir, key: Key, until: int) {
    forall i :: 0 <= i < |d.data| ==> key in d.data[i] && d.data[i][key].expiresAt >= until
  }

  ghost predicate StoreInv(c: Config, s: System) {
    && Acknowledged(s.dir)
    && (forall i, k :: 0 <= i < |s.dir.data| && k in s.dir.data[i] ==> s.dir.data[i][k].expiresAt <= s.now + c.retention)
    && (forall k :: k in s.acked ==> s.acked[k].expiresAt <= s.now + c.retention)
    && (forall k :: k in s.acked && s.acked[k].expiresAt > s.now ==> Keeps(s.dir, k, s.acked[k].expiresAt))
  }

  /** Live records of any possible image, together with the reserved keys, fit the bound. */
  ghost predicate CapacityInv(c: Config, s: System) {
    forall i :: 0 <= i < |s.dir.data| ==> |Live(s.dir.data[i], s.now).Keys + s.reserved| <= c.maxRecords
  }

  predicate HoldsSlot(st: Stage) { st == Reserved || st.Woken? || st == Releasing }

  predicate HoldsSeat(st: Stage) { st == Seated || st == Checked || HoldsSlot(st) }

  ghost predicate FlightInv(s: System) {
    && (forall k :: k in s.reserved ==> k in s.flights && HoldsSlot(s.flights[k].stage))
    && (forall k :: k in s.flights && HoldsSeat(s.flights[k].stage) ==>
          s.flights[k].seat in s.seats && s.seats[s.flights[k].seat] == k)
  }

  predicate WokeAt(log: seq<Mark>, i: nat, key: Key, at: int) {
    i < |log| && log[i] == Woke(key, at)
  }

  /** The mark says that a wake of `key` went unrecorded. */
  predicate ExcusedBy(mark: Mark, key: Key) {
    mark == CommitFailed(key) || (mark.Stopped? && key in mark.uncommitted)
  }

  predicate Excuses(log: seq<Mark>, m: nat, key: Key) {
    m < |log| && ExcusedBy(log[m], key)
  }

  /** Between positions `i` and `j` something excuses repeating a wake of `key`. */
  ghost predicate Excused(log: seq<Mark>, key: Key, i: nat, j: nat) {
    exists m :: i < m < j && Excuses(log, m, key)
  }

  /** A wake that nothing excuses is being committed, has run its retention, or is on record. */
  ghost predicate Accounted(c: Config, s: System, i: nat, key: Key, at: int) {
    && at <= s.now
    && (|| Excused(s.log, key, i, |s.log|)
        || At(s, key, Woken(at))
        || at + c.retention <= s.now
        || Keeps(s.dir, key, at + c.retention))
  }

  /** Past its second lookup, a flight knows that every unexcused earlier wake has expired. */
  ghost predicate Clear(c: Config, s: System, key: Key) {
    forall i, at :: WokeAt(s.log, i, key, at) ==> Excused(s.log, key, i, |s.log|) || at + c.retention <= s.now
  }

  /** Two wakes of one key: the second finds the first excused or expired. */
  ghost predicate NoRepeat(c: Config, log: seq<Mark>) {
    forall i, j, key, t, u :: i < j && WokeAt(log, i, key, t) && WokeAt(log, j, key, u) ==>
      Excused(log, key, i, j) || t + c.retention <= u
  }

  predicate Protected(s: System, key: Key) { At(s, key, Checked) || At(s, key, Reserved) }

  ghost predicate LogInv(c: Config, s: System) {
    && (forall i, key, at :: WokeAt(s.log, i, key, at) ==> Accounted(c, s, i, key, at))
    && (forall key :: Protected(s, key) ==> Clear(c, s, key))
    && NoRepeat(c, s.log)
  }

  ghost predicate Inv(c: Config, s: System) {
    StoreInv(c, s) && CapacityInv(c, s) && FlightInv(s) && LogInv(c, s)
  }

  // ------------------------------------------------------------------ the directory

  /** Every live record of `before` is in `f`, at least as long. */
  ghost predicate Retains(before: File, f: File, now: int) {
    forall k :: k in before && before[k].expiresAt > now ==> k in f && f[k].expiresAt >= before[k].expiresAt
  }

  lemma KeepsEvolves(d: Dir, after: Dir, f: File, now: int)
    requires Evolves(d, after, f) && Retains(VisibleFile(d), f, now)
    ensures forall k, until :: until > now && Keeps(d, k, until) ==> Keeps(after, k, until)
  {
    forall k, until | until > now && Keeps(d, k, until) ensures Keeps(after, k, until) {
      assert k in d.data[|d.data| - 1];
      forall i | 0 <= i < |after.data| ensures k in after.data[i] && after.data[i][k].expiresAt >= until {
        if after.data[i] in d.data {
          var j :| 0 <= j < |d.data| && d.data[j] == after.data[i];
        }
      }
    }
  }

  lemma SmallerSet<T>(a: set<T>, b: set<T>)
    requires a <= b
    ensures |a| <= |b|
  {
    if a != {} {
      var x :| x in a;
      SmallerSet(a - {x}, b - {x});
    }
  }

  /** A read changes neither what is visible nor what a power loss may keep. */
  lemma ReadKeepsInv(c: Config, s: System, p: Plan)
    requires Inv(c, s)
    ensures Inv(c, s.(dir := ReadFile(s.dir, p).dir))
    ensures ReadFile(s.dir, p).fate == Ran ==> ReadFile(s.dir, p).dir.data == [VisibleFile(s.dir)]
  {
    ReadIsDurable(s.dir, p);
    var t := s.(dir := ReadFile(s.dir, p).dir);
    KeepsEvolves(s.dir, t.dir, VisibleFile(s.dir), s.now);
    ImagesShrink(c, s, t);
  }

  /** The log invariant survives any step that adds no mark, loses no promise, and ends a wake's commit
      only with the wake on record. */
  lemma LogFrame(c: Config, s: System, t: System)
    requires LogInv(c, s) && t.log == s.log && s.now <= t.now
    requires forall k, until :: until > t.now && Keeps(s.dir, k, until) ==> Keeps(t.dir, k, until)
    requires forall k, at :: At(s, k, Woken(at)) && at <= s.now ==> At(t, k, Woken(at)) || Keeps(t.dir, k, at + c.retention)
    requires forall k :: Protected(t, k) ==> Clear(c, s, k)
    ensures LogInv(c, t)
  {
    forall i: nat, key, at | WokeAt(t.log, i, key, at) ensures Accounted(c, t, i, key, at) {
      assert Accounted(c, s, i, key, at);
    }
    forall key | Protected(t, key) ensures Clear(c, t, key) { assert Clear(c, s, key); }
  }

  lemma CapacityFrame(c: Config, s: System, t: System)
    requires CapacityInv(c, s) && s.now <= t.now && t.reserved <= s.reserved
    requires forall i :: 0 <= i < |t.dir.data| ==> t.dir.data[i] in s.dir.data
    ensures CapacityInv(c, t)
  {
    forall i | 0 <= i < |t.dir.data| ensures |Live(t.dir.data[i], t.now).Keys + t.reserved| <= c.maxRecords {
      var j :| 0 <= j < |s.dir.data| && s.dir.data[j] == t.dir.data[i];
      SmallerSet(Live(t.dir.data[i], t.now).Keys + t.reserved, Live(s.dir.data[j], s.now).Keys + s.reserved);
    }
  }

  /** A step that only drops possible images, without losing what all of them kept. */
  lemma ImagesShrink(c: Config, s: System, t: System)
    requires Inv(c, s) && t == s.(dir := t.dir) && Acknowledged(t.dir)
    requires forall i :: 0 <= i < |t.dir.data| ==> t.dir.data[i] in s.dir.data
    requires forall k, until :: until > s.now && Keeps(s.dir, k, until) ==> Keeps(t.dir, k, until)
    ensures Inv(c, t)
  {
    LogFrame(c, s, t);
    CapacityFrame(c, s, t);
    forall i, k | 0 <= i < |t.dir.data| && k in t.dir.data[i] ensures t.dir.data[i][k].expiresAt <= t.now + c.retention {
      var j :| 0 <= j < |s.dir.data| && s.dir.data[j] == t.dir.data[i];
    }
  }

  // ------------------------------------------------------------------ flights and the log

  /** Steps that leave store, log and clock alone, and take no flight into or out of the protected stages. */
  lemma FlightStepKeepsInv(c: Config, s: System, t: System)
    requires Inv(c, s) && FlightInv(t)
    requires t.dir == s.dir && t.reserved <= s.reserved && t.now == s.now && t.log == s.log && t.acked == s.acked
    requires forall k, at :: At(s, k, Woken(at)) ==> At(t, k, Woken(at))
    requires forall k :: Protected(t, k) ==> Clear(c, s, k)
    ensures Inv(c, t)
  {
    LogFrame(c, s, t);
    CapacityFrame(c, s, t);
  }

  lemma EndKeepsInv(c: Config, s: System, key: Key)
    requires Inv(c, s) && key in s.flights && !s.flights[key].stage.Woken? && key !in s.reserved
    ensures Inv(c, End(s, key))
  {
    var t := End(s, key);
    assert forall k, at :: At(s, k, Woken(at)) ==> At(t, k, Woken(at));
    FlightStepKeepsInv(c, s, t);
  }

  lemma MoveKeepsInv(c: Config, s: System, key: Key, stage: Stage)
    requires Inv(c, s) && key in s.flights && !s.flights[key].stage.Woken? && !stage.Woken?
    requires HoldsSlot(s.flights[key].stage) ==> HoldsSlot(stage)
    requires HoldsSeat(stage) ==> s.flights[key].seat in s.seats && s.seats[s.flights[key].seat] == key
    requires stage == Checked || stage == Reserved ==> Clear(c, s, key)
    ensures Inv(c, Move(s, key, stage))
  {
    var t := Move(s, key, stage);
    assert forall k :: k != key ==> Protected(t, k) == Protected(s, k);
    assert forall k, at :: At(s, k, Woken(at)) ==> At(t, k, Woken(at));
    FlightStepKeepsInv(c, s, t);
  }

  lemma AckKeepsStore(c: Config, s: System, key: Key, e: Entry)
    requires StoreInv(c, s) && Keeps(s.dir, key, e.expiresAt) && e.expiresAt <= s.now + c.retention
    ensures StoreInv(c, s.(acked := s.acked[key := e]))
  {
  }

  lemma ExcusedGrows(log: seq<Mark>, mark: Mark, key: Key, i: nat, j: nat)
    requires j <= |log| && Excused(log, key, i, j)
    ensures Excused(log + [mark], key, i, |log| + 1) && Excused(log + [mark], key, i, j)
  {
    var m :| i < m < j && Excuses(log, m, key);
    assert Excuses(log + [mark], m, key);
  }

  /** What a step that adds one mark owes the log invariant. */
  lemma MarkKeepsLog(c: Config, s: System, t: System, mark: Mark)
    requires LogInv(c, s) && t.log == s.log + [mark] && t.dir == s.dir && t.now == s.now
    requires forall k, at :: At(s, k, Woken(at)) ==> At(t, k, Woken(at)) || ExcusedBy(mark, k)
    requires mark.Woke? ==> Clear(c, s, mark.key) && mark.at == s.now && At(t, mark.key, Woken(mark.at))
    requires forall k :: Protected(t, k) ==> Protected(s, k) && !(mark.Woke? && mark.key == k)
    ensures LogInv(c, t)
  {
    forall i: nat, key, at | WokeAt(t.log, i, key, at) ensures Accounted(c, t, i, key, at) {
      if i < |s.log| {
        assert WokeAt(s.log, i, key, at) && Accounted(c, s, i, key, at);
        if Excused(s.log, key, i, |s.log|) { ExcusedGrows(s.log, mark, key, i, |s.log|); }
        else if At(s, key, Woken(at)) && !At(t, key, Woken(at)) { assert Excuses(t.log, |s.log|, key); }
      }
    }
    forall key | Protected(t, key) ensures Clear(c, t, key) {
      assert Clear(c, s, key);
      ClearGrows(c, s, t, mark, key);
    }
    NoRepeatGrows(c, s.log, mark);
  }

  lemma ClearGrows(c: Config, s: System, t: System, mark: Mark, key: Key)
    requires Clear(c, s, key) && t.log == s.log + [mark] && t.now == s.now && !(mark.Woke? && mark.key == key)
    ensures Clear(c, t, key)
  {
    forall i: nat, at | WokeAt(t.log, i, key, at) ensures Excused(t.log, key, i, |t.log|) || at + c.retention <= t.now {
      assert WokeAt(s.log, i, key, at);
      if Excused(s.log, key, i, |s.log|) { ExcusedGrows(s.log, mark, key, i, |s.log|); }
    }
  }

  lemma NoRepeatGrows(c: Config, log: seq<Mark>, mark: Mark)
    requires NoRepeat(c, log)
    requires mark.Woke? ==> forall i, at :: WokeAt(log, i, mark.key, at) ==>
               Excused(log, mark.key, i, |log|) || at + c.retention <= mark.at
    ensures NoRepeat(c, log + [mark])
  {
    var g := log + [mark];
    forall i: nat, j: nat, key, t, u | i < j && WokeAt(g, i, key, t) && WokeAt(g, j, key, u)
      ensures Excused(g, key, i, j) || t + c.retention <= u
    {
      assert WokeAt(log, i, key, t);
      if j < |log| { assert WokeAt(log, j, key, u); }
      if Excused(log, key, i, j) { ExcusedGrows(log, mark, key, i, j); }
    }
  }

  lemma StopKeepsInv(c: Config, s: System)
    requires Inv(c, s)
    ensures Inv(c, Stop(s))
  {
    var t := Stop(s);
    MarkKeepsLog(c, s, t, Stopped(Uncommitted(s)));
    forall i | 0 <= i < |t.dir.data| ensures |Live(t.dir.data[i], t.now).Keys + t.reserved| <= c.maxRecords {
      SmallerSet(Live(t.dir.data[i], t.now).Keys + t.reserved, Live(s.dir.data[i], s.now).Keys + s.reserved);
    }
  }

  // ------------------------------------------------------------------ one lemma per step

  lemma LookUpKeepsInv(c: Config, s: System, key: Key, p: Plan, next: Stage)
    requires Inv(c, s) && ((At(s, key, Fresh) && next == Queued) || (At(s, key, Seated) && next == Checked))
    ensures Inv(c, LookUp(s, key, p, next))
  {
    var a := GetStep(s.dir, s.reserved, key, s.now, p);
    var t := s.(dir := a.dir);
    ReadKeepsInv(c, s, p);
    if a.out.fate == Died {
      StopKeepsInv(c, t);
    } else if a.out.fate == Threw {
      EndKeepsInv(c, t, key);
    } else if a.out.hit.Some? {
      HitKeepsInv(c, t, key, a.out.hit.value);
    } else {
      MissKeepsInv(c, t, key, next);
    }
  }

  lemma HitKeepsInv(c: Config, s: System, key: Key, e: Entry)
    requires Inv(c, s) && (At(s, key, Fresh) || At(s, key, Seated))
    requires |s.dir.data| == 1 && Lookup(s.dir.data[0], key, s.now) == Some(e)
    ensures Inv(c, End(s.(acked := s.acked[key := e]), key))
  {
    NoSlotHeld(s, key);
    HitIsKept(s.dir, key, s.now, e);
    AckEndsInv(c, s, key, e, s.reserved);
  }

  lemma HitIsKept(d: Dir, key: Key, now: int, e: Entry)
    requires |d.data| == 1 && Lookup(d.data[0], key, now) == Some(e)
    ensures Keeps(d, key, e.expiresAt)
  {
  }

  lemma MissKeepsInv(c: Config, s: System, key: Key, next: Stage)
    requires Inv(c, s) && ((At(s, key, Fresh) && next == Queued) || (At(s, key, Seated) && next == Checked))
    requires |s.dir.data| == 1 && Lookup(s.dir.data[0], key, s.now) == None
    ensures Inv(c, Move(s, key, next))
  {
    if next == Checked { MissIsClear(c, s, key); }
    MoveKeepsInv(c, s, key, next);
  }

  /** After a durable read that missed, every unexcused wake of the key has expired. */
  lemma MissIsClear(c: Config, s: System, key: Key)
    requires Inv(c, s) && At(s, key, Seated)
    requires |s.dir.data| == 1 && Lookup(s.dir.data[0], key, s.now) == None
    ensures Clear(c, s, key)
  {
    forall i: nat, at | WokeAt(s.log, i, key, at) ensures Excused(s.log, key, i, |s.log|) || at + c.retention <= s.now {
      assert Accounted(c, s, i, key, at);
      if Keeps(s.dir, key, at + c.retention) { assert key in s.dir.data[0]; }
    }
  }

  lemma NoSlotHeld(s: System, key: Key)
    requires FlightInv(s) && key in s.flights && !HoldsSlot(s.flights[key].stage)
    ensures key !in s.reserved
  {
  }

  lemma AdmitKeepsInv(c: Config, s: System, key: Key, q: Done)
    requires At(s, key, Checked) && Inv(c, s.(dir := q.dir))
    requires q.fate == Ran ==> q.dir.data == [VisibleFile(q.dir)]
    ensures Inv(c, Admit(s, key, TakeSlot(q, s.reserved, key, s.now, c.maxRecords)))
  {
    var a := TakeSlot(q, s.reserved, key, s.now, c.maxRecords);
    var t := s.(dir := q.dir);
    if a.out == Stored {
      GrantKeepsInv(c, t, key, a.reserved);
    } else if a.out == Failed(Died) {
      StopKeepsInv(c, t);
    } else {
      NoSlotHeld(t, key);
      EndKeepsInv(c, t, key);
    }
  }

  lemma ReserveKeepsInv(c: Config, s: System, key: Key, p: Plan)
    requires Inv(c, s) && At(s, key, Checked)
    ensures Inv(c, Admit(s, key, ReserveStep(s.dir, s.reserved, key, s.now, c.maxRecords, p)))
  {
    ReadKeepsInv(c, s, p);
    AdmitKeepsInv(c, s, key, ReadFile(s.dir, p));
  }

  lemma GrantKeepsInv(c: Config, s: System, key: Key, reserved: set<Key>)
    requires Inv(c, s) && At(s, key, Checked) && s.dir.data == [VisibleFile(s.dir)]
    requires !WouldExceed(Live(VisibleFile(s.dir), s.now), s.reserved, key, c.maxRecords)
    requires s.reserved <= reserved <= s.reserved + {key}
    ensures Inv(c, Move(s, key, Reserved).(reserved := reserved))
  {
    ReservedFits(c, s, key, reserved);
    MoveToReserved(c, s, key, reserved);
  }

  lemma ReservedFits(c: Config, s: System, key: Key, reserved: set<Key>)
    requires CapacityInv(c, s) && s.dir.data == [VisibleFile(s.dir)]
    requires !WouldExceed(Live(VisibleFile(s.dir), s.now), s.reserved, key, c.maxRecords)
    ensures |Live(s.dir.data[0], s.now).Keys + s.reserved + {key}| <= c.maxRecords
  {
    assert |Live(s.dir.data[0], s.now).Keys + s.reserved| <= c.maxRecords;
    SlotFits(c, Live(VisibleFile(s.dir), s.now), s.reserved, key);
  }

  /** A reservation that is not refused keeps live records and reserved keys within the bound. */
  lemma SlotFits(c: Config, f: File, reserved: set<Key>, key: Key)
    requires |f.Keys + reserved| <= c.maxRecords
    requires !WouldExceed(f, reserved, key, c.maxRecords)
    ensures |f.Keys + reserved + {key}| <= c.maxRecords
  {
    if key in f || key in reserved {
      assert f.Keys + reserved + {key} == f.Keys + reserved;
    } else {
      assert |f.Keys + reserved| <= |f| + |reserved|;
      assert |f.Keys + reserved + {key}| == |f.Keys + reserved| + 1;
    }
  }

  lemma MoveToReserved(c: Config, s: System, key: Key, reserved: set<Key>)
    requires Inv(c, s) && At(s, key, Checked) && |s.dir.data| == 1
    requires s.reserved <= reserved <= s.reserved + {key}
    requires |Live(s.dir.data[0], s.now).Keys + s.reserved + {key}| <= c.maxRecords
    ensures Inv(c, Move(s, key, Reserved).(reserved := reserved))
  {
    var t := Move(s, key, Reserved).(reserved := reserved);
    assert LogInv(c, t) by {
      hide StoreInv, CapacityInv, FlightInv;
      assert Protected(s, key);
      assert forall k, at :: At(s, k, Woken(at)) ==> At(t, k, Woken(at));
      LogFrame(c, s, t);
    }
    hide LogInv, StoreInv, FlightInv;
    assert CapacityInv(c, t) by {
      SmallerSet(Live(t.dir.data[0], t.now).Keys + reserved, Live(s.dir.data[0], s.now).Keys + s.reserved + {key});
    }
    StoreFrame(c, s, t);
    MoveKeepsFlights(s, key, reserved);
  }

  lemma StoreFrame(c: Config, s: System, t: System)
    requires StoreInv(c, s) && t.dir == s.dir && t.acked == s.acked && t.now == s.now
    ensures StoreInv(c, t)
  {
  }

  lemma MoveKeepsFlights(s: System, key: Key, reserved: set<Key>)
    requires FlightInv(s) && At(s, key, Checked) && s.reserved <= reserved <= s.reserved + {key}
    ensures FlightInv(Move(s, key, Reserved).(reserved := reserved))
  {
  }

  lemma EndKeepsFlights(s: System, t: System, key: Key)
    requires FlightInv(s)
    requires t.flights == End(s, key).flights && t.seats == End(s, key).seats && t.reserved == s.reserved - {key}
    ensures FlightInv(t)
  {
  }

  /** A successful wake: the flight was clear, so it does not repeat an unexcused, unexpired wake. */
  lemma SendKeepsInv(c: Config, s: System, key: Key)
    requires Inv(c, s) && At(s, key, Reserved)
    ensures Inv(c, Step(c, s, Send(key, true)))
  {
    var t := Step(c, s, Send(key, true));
    assert Protected(s, key);
    MarkKeepsLog(c, s, t, Woke(key, s.now));
    CapacityFrame(c, s, t);
    StoreFrame(c, s, t);
  }

  /** Writing the live records plus the new one: every earlier promise still holds. */
  lemma WriteKeepsStore(c: Config, s: System, key: Key, e: Entry, w: Dir)
    requires StoreInv(c, s) && s.dir.data == [VisibleFile(s.dir)] && e.expiresAt == s.now + c.retention
    requires Acknowledged(w) && Evolves(s.dir, w, Live(VisibleFile(s.dir), s.now)[key := e])
    ensures StoreInv(c, s.(dir := w))
    ensures forall k, until :: until > s.now && Keeps(s.dir, k, until) ==> Keeps(w, k, until)
  {
    var f := Live(VisibleFile(s.dir), s.now)[key := e];
    assert Retains(VisibleFile(s.dir), f, s.now);
    KeepsEvolves(s.dir, w, f, s.now);
  }

  lemma WriteKeepsCapacity(c: Config, s: System, key: Key, e: Entry, w: Dir)
    requires CapacityInv(c, s) && s.dir.data == [VisibleFile(s.dir)]
    requires !WouldExceed(Live(VisibleFile(s.dir), s.now), s.reserved, key, c.maxRecords)
    requires Evolves(s.dir, w, Live(VisibleFile(s.dir), s.now)[key := e])
    ensures CapacityInv(c, s.(dir := w))
  {
    var v := VisibleFile(s.dir);
    var f := Live(v, s.now)[key := e];
    assert |Live(s.dir.data[0], s.now).Keys + s.reserved| <= c.maxRecords;
    SlotFits(c, Live(v, s.now), s.reserved, key);
    SmallerSet(Live(f, s.now).Keys + s.reserved, Live(v, s.now).Keys + s.reserved + {key});
    forall i | 0 <= i < |w.data| ensures |Live(w.data[i], s.now).Keys + s.reserved| <= c.maxRecords {
      assert w.data[i] == v || w.data[i] == f;
    }
  }

  lemma WriteKeepsInv(c: Config, s: System, key: Key, e: Entry, p: Plan)
    requires Inv(c, s) && key in s.flights && s.dir.data == [VisibleFile(s.dir)]
    requires e.expiresAt == s.now + c.retention
    requires !WouldExceed(Live(VisibleFile(s.dir), s.now), s.reserved, key, c.maxRecords)
    ensures var f := Live(VisibleFile(s.dir), s.now)[key := e];
            var w := WriteFile(s.dir, f, p);
            && Inv(c, s.(dir := w.dir))
            && (w.fate == Ran ==> w.dir.data == [f])
  {
    var f := Live(VisibleFile(s.dir), s.now)[key := e];
    var w := WriteFile(s.dir, f, p);
    WriteIsDurable(s.dir, f, p);
    var t := s.(dir := w.dir);
    WriteKeepsStore(c, s, key, e, w.dir);
    WriteKeepsCapacity(c, s, key, e, w.dir);
    LogFrame(c, s, t);
  }

  /** A flight ends with an acknowledged entry. If its wake was being committed, the entry outlives
      every wake of the key that was made up to now. */
  lemma AckEndsInv(c: Config, s: System, key: Key, e: Entry, reserved: set<Key>)
    requires Inv(c, s) && key in s.flights && reserved == s.reserved - {key}
    requires e.expiresAt <= s.now + c.retention && Keeps(s.dir, key, e.expiresAt)
    requires s.flights[key].stage.Woken? ==> e.expiresAt == s.now + c.retention
    ensures Inv(c, End(s.(reserved := reserved, acked := s.acked[key := e]), key))
  {
    var t := End(s.(reserved := reserved, acked := s.acked[key := e]), key);
    AckEndsLog(c, s, t, key, e.expiresAt);
    CapacityFrame(c, s, t);
    AckKeepsStore(c, s, key, e);
    StoreFrame(c, s.(acked := s.acked[key := e]), t);
    EndKeepsFlights(s, t, key);
  }

  lemma AckEndsLog(c: Config, a: System, t: System, key: Key, until: int)
    requires LogInv(c, a) && t.log == a.log && t.dir == a.dir && t.now == a.now && t.flights == a.flights - {key}
    requires key in a.flights && Keeps(t.dir, key, until)
    requires a.flights[key].stage.Woken? ==> until == a.now + c.retention
    ensures LogInv(c, t)
  {
    forall k, at | At(a, k, Woken(at)) && at <= a.now ensures At(t, k, Woken(at)) || Keeps(t.dir, k, at + c.retention) {
      if k == key { assert Keeps(t.dir, key, at + c.retention); }
    }
    LogFrame(c, a, t);
  }

  lemma FailedStoreKeepsInv(c: Config, s: System, key: Key, failedWake: bool)
    requires Inv(c, s) && key in s.flights
    requires if failedWake then s.flights[key].stage.Woken? else s.flights[key].stage == Reserved
    ensures Inv(c, Move(if failedWake then s.(log := s.log + [CommitFailed(key)]) else s, key, Releasing))
  {
    if failedWake {
      var t := Move(s.(log := s.log + [CommitFailed(key)]), key, Releasing);
      MarkKeepsLog(c, s, t, CommitFailed(key));
      assert StoreInv(c, t) && CapacityInv(c, t) && FlightInv(t);
    } else {
      MoveKeepsInv(c, s, key, Releasing);
    }
  }

  /** The store part of a commit, before the flight reacts to its outcome. */
  lemma CommitKeepsInv(c: Config, s: System, key: Key, p: Plan, e: Entry)
    requires Inv(c, s) && key in s.flights && e.expiresAt == s.now + c.retention
    ensures var a := CommitStep(s.dir, s.reserved, key, e, s.now, c.maxRecords, p);
            && Inv(c, s.(dir := a.dir))
            && (a.out == Stored ==> Keeps(a.dir, key, e.expiresAt))
  {
    var q := s.(dir := ReadFile(s.dir, p).dir);
    ReadKeepsInv(c, s, p);
    var f := Live(VisibleFile(q.dir), s.now);
    if ReadFile(s.dir, p).fate == Ran && !WouldExceed(f, s.reserved, key, c.maxRecords) && SafeKey(key) {
      WriteKeepsInv(c, q, key, e, p);
    }
  }

  lemma SettleKeepsInv(c: Config, s: System, key: Key, success: bool, a: After<Outcome>)
    requires key in s.flights && Inv(c, s.(dir := a.dir))
    requires if success then s.flights[key].stage.Woken? else s.flights[key].stage == Reserved
    requires a.out == Stored ==> a.reserved == s.reserved - {key} && Keeps(a.dir, key, s.now + c.retention)
    requires a.out != Stored ==> a.reserved == s.reserved
    ensures Inv(c, Settle(c, s, key, success, a))
  {
    var w := s.(dir := a.dir);
    if a.out == Stored {
      AckEndsInv(c, w, key, EntryNow(c, s, success), a.reserved);
    } else if a.out == Failed(Died) {
      StopKeepsInv(c, w);
    } else {
      FailedStoreKeepsInv(c, w, key, success);
    }
  }

  lemma StoreKeepsInv(c: Config, s: System, key: Key, p: Plan, success: bool)
    requires Inv(c, s) && key in s.flights
    requires if success then s.flights[key].stage.Woken? else s.flights[key].stage == Reserved
    ensures Inv(c, Store(c, s, key, p, success))
  {
    var e := EntryNow(c, s, success);
    CommitKeepsInv(c, s, key, p, e);
    CommitIsDurable(s.dir, s.reserved, key, e, s.now, c.maxRecords, p);
    SettleKeepsInv(c, s, key, success, CommitStep(s.dir, s.reserved, key, e, s.now, c.maxRecords, p));
  }

  lemma ReleaseKeepsInv(c: Config, s: System, key: Key)
    requires Inv(c, s) && At(s, key, Releasing)
    ensures Inv(c, Step(c, s, Release(key)))
  {
    var t := Step(c, s, Release(key));
    assert forall k, at :: At(s, k, Woken(at)) ==> At(t, k, Woken(at));
    FlightStepKeepsInv(c, s, t);
  }

  lemma TickKeepsInv(c: Config, s: System, elapsed: nat)
    requires Inv(c, s)
    ensures Inv(c, Step(c, s, Tick(elapsed)))
  {
    var t := Step(c, s, Tick(elapsed));
    LogFrame(c, s, t);
    CapacityFrame(c, s, t);
  }

  lemma LosePowerKeepsInv(c: Config, s: System, i: nat, j: nat)
    requires Inv(c, s) && i < |s.dir.data| && j < |s.dir.marker|
    ensures Inv(c, Step(c, s, LosePower(i, j)))
  {
    var q := s.(dir := PowerLoss(s.dir, i, j));
    ImagesShrink(c, s, q);
    StopKeepsInv(c, q);
  }

  /** Steps of a flight that touch neither the store nor the log. */
  lemma QuietStepKeepsInv(c: Config, s: System, e: Event)
    requires Inv(c, s) && (e.Arrive? || e.Enter? || e.Abandon? || e.Unwritable? || e.Release?)
    ensures Inv(c, Step(c, s, e))
  {
    if e.Arrive? || e.Enter? {
      var t := Step(c, s, e);
      assert forall k, at :: At(s, k, Woken(at)) ==> At(t, k, Woken(at));
      FlightStepKeepsInv(c, s, t);
    } else if e.Release? {
      if At(s, e.key, Releasing) { ReleaseKeepsInv(c, s, e.key); }
    } else if (e.Abandon? && At(s, e.key, Queued)) || (e.Unwritable? && At(s, e.key, Checked)) {
      EndKeepsInv(c, s, e.key);
    }
  }

  lemma StoreEventKeepsInv(c: Config, s: System, e: Event)
    requires Inv(c, s) && (e.FirstGet? || e.SecondGet? || e.Reserve? || e.Observe? || e.Commit?)
    ensures Inv(c, Step(c, s, e))
  {
    if e.FirstGet? {
      if At(s, e.key, Fresh) { LookUpKeepsInv(c, s, e.key, e.p, Queued); }
    } else if e.SecondGet? {
      if At(s, e.key, Seated) { LookUpKeepsInv(c, s, e.key, e.p, Checked); }
    } else if e.Reserve? {
      if At(s, e.key, Checked) { ReserveKeepsInv(c, s, e.key, e.p); }
    } else if e.Observe? {
      if At(s, e.key, Reserved) { StoreKeepsInv(c, s, e.key, e.p, false); }
    } else if e.key in s.flights && s.flights[e.key].stage.Woken? {
      StoreKeepsInv(c, s, e.key, e.p, true);
    }
  }

  lemma SendEventKeepsInv(c: Config, s: System, key: Key, ok: bool)
    requires Inv(c, s)
    ensures Inv(c, Step(c, s, Send(key, ok)))
  {
    if At(s, key, Reserved) {
      if ok { SendKeepsInv(c, s, key); } else { MoveKeepsInv(c, s, key, Releasing); }
    }
  }

  lemma LosePowerEventKeepsInv(c: Config, s: System, i: nat, j: nat)
    requires Inv(c, s)
    ensures Inv(c, Step(c, s, LosePower(i, j)))
  {
    if i < |s.dir.data| && j < |s.dir.marker| { LosePowerKeepsInv(c, s, i, j); }
  }

  lemma KillKeepsInv(c: Config, s: System)
    requires Inv(c, s)
    ensures Inv(c, Step(c, s, Kill))
  {
    StopKeepsInv(c, s);
  }

  lemma StepKeepsInv(c: Config, s: System, e: Event)
    requires Inv(c, s)
    ensures Inv(c, Step(c, s, e))
  {
    if e.Arrive? || e.Enter? || e.Abandon? || e.Unwritable? || e.Release? {
      QuietStepKeepsInv(c, s, e);
    } else if e.FirstGet? || e.SecondGet? || e.Reserve? || e.Observe? || e.Commit? {
      StoreEventKeepsInv(c, s, e);
    } else if e.Send? {
      SendEventKeepsInv(c, s, e.key, e.ok);
    } else if e.LosePower? {
      LosePowerEventKeepsInv(c, s, e.i, e.j);
    } else if e.Kill? {
      KillKeepsInv(c, s);
    } else {
      TickKeepsInv(c, s, e.elapsed);
    }
  }

  ghost function Run(c: Config, s: System, events: seq<Event>): (t: System)
    requires Inv(c, s)
    ensures Inv(c, t)
    decreases |events|
  {
    if events == [] then s else
    StepKeepsInv(c, s, events[0]);
    Run(c, Step(c, s, events[0]), events[1..])
  }

  lemma StartIsGood(c: Config, now: int)
    ensures Inv(c, Start(now))
  {
    assert Live(EmptyFile, now) == map[];
  }

  // ------------------------------------------------------------------ main results

  /** For one event key a second successful wake comes only after the retention of the first has run
      out, or after its commit failed, or after the process or the machine stopped between the two. */
  lemma NoSecondWake(c: Config, start: int, events: seq<Event>, key: Key, i: nat, j: nat, t: int, u: int)
    requires i < j && WokeAt(Run(c, Inited(c, start), events).log, i, key, t)
    requires WokeAt(Run(c, Inited(c, start), events).log, j, key, u)
    requires u < t + c.retention
    ensures exists m :: i < m < j && Excuses(Run(c, Inited(c, start), events).log, m, key)
  {
    var log := Run(c, Inited(c, start), events).log;
    assert NoRepeat(c, log);
    assert Excused(log, key, i, j);
  }

  /** The empty store, known to satisfy the invariant. */
  ghost function Inited(c: Config, now: int): (s: System)
    ensures Inv(c, s) && s == Start(now)
  {
    StartIsGood(c, now);
    Start(now)
  }

  /** An acknowledgement never gets shorter. */
  lemma {:induction false} AckedGrows(c: Config, s: System, events: seq<Event>, key: Key)
    requires Inv(c, s) && key in s.acked
    ensures AckKept(s, Run(c, s, events), key)
    decreases |events|
  {
    if events != [] {
      StepKeepsInv(c, s, events[0]);
      var t := Step(c, s, events[0]);
      AckStep(c, s, events[0], key);
      AckedGrows(c, t, events[1..], key);
    }
  }

  /** The acknowledgement of `key` is at least as long in `t`, unless it has expired. */
  predicate AckKept(s: System, t: System, key: Key)
    requires key in s.acked
  {
    s.now <= t.now && key in t.acked && (t.acked[key].expiresAt >= s.acked[key].expiresAt || s.acked[key].expiresAt <= t.now)
  }

  lemma LookUpAck(c: Config, s: System, k: Key, p: Plan, next: Stage, key: Key)
    requires StoreInv(c, s) && key in s.acked && k in s.flights
    ensures AckKept(s, LookUp(s, k, p, next), key)
  {
    HitIsDurable(s.dir, s.reserved, k, s.now, p);
    var a := GetStep(s.dir, s.reserved, k, s.now, p);
    if a.out.hit.Some? && k == key && s.acked[key].expiresAt > s.now {
      assert Keeps(s.dir, key, s.acked[key].expiresAt);
      assert VisibleFile(s.dir) == s.dir.data[|s.dir.data| - 1];
    }
  }

  lemma StoreAck(c: Config, s: System, k: Key, p: Plan, success: bool, key: Key)
    requires StoreInv(c, s) && key in s.acked && k in s.flights
    ensures AckKept(s, Store(c, s, k, p, success), key)
  {
  }

  lemma AckStep(c: Config, s: System, e: Event, key: Key)
    requires StoreInv(c, s) && key in s.acked
    ensures AckKept(s, Step(c, s, e), key)
  {
    match e
    case FirstGet(k, p) => if At(s, k, Fresh) { LookUpAck(c, s, k, p, Queued, key); }
    case SecondGet(k, p) => if At(s, k, Seated) { LookUpAck(c, s, k, p, Checked, key); }
    case Observe(k, p) => if At(s, k, Reserved) { StoreAck(c, s, k, p, false, key); }
    case Commit(k, p) => if k in s.flights && s.flights[k].stage.Woken? { StoreAck(c, s, k, p, true, key); }
    case _ =>
  }

  /** Whatever was once acknowledged, by a hit or by a commit that returned, stays a hit until it
      expires: after any further steps, in what is visible and in whatever a power loss may leave. */
  lemma AcknowledgedIsDurable(c: Config, s: System, events: seq<Event>, key: Key, i: nat)
    requires Inv(c, s) && key in s.acked
    requires var t := Run(c, s, events); i < |t.dir.data| && t.now < s.acked[key].expiresAt
    ensures Lookup(Run(c, s, events).dir.data[i], key, Run(c, s, events).now).Some?
  {
    AckedGrows(c, s, events, key);
    var t := Run(c, s, events);
    assert Keeps(t.dir, key, t.acked[key].expiresAt);
  }

  /** `key` is visible and live in `before`, and at least as long in `after`. */
  ghost predicate StillLive(before: Dir, after: Dir, key: Key) {
    && key in VisibleFile(before) && key in VisibleFile(after)
    && VisibleFile(after)[key].expiresAt >= VisibleFile(before)[key].expiresAt
  }

  lemma LookUpEvictsNothing(s: System, k: Key, p: Plan, next: Stage, key: Key)
    requires Acknowledged(s.dir) && k in s.flights && key in VisibleFile(s.dir)
    ensures StillLive(s.dir, LookUp(s, k, p, next).dir, key)
  {
    ReadIsDurable(s.dir, p);
  }

  lemma ReserveEvictsNothing(c: Config, s: System, k: Key, p: Plan, key: Key)
    requires Acknowledged(s.dir) && k in s.flights && key in VisibleFile(s.dir)
    ensures StillLive(s.dir, Admit(s, k, ReserveStep(s.dir, s.reserved, k, s.now, c.maxRecords, p)).dir, key)
  {
    ReadIsDurable(s.dir, p);
  }

  lemma StoreEvictsNothing(c: Config, s: System, k: Key, p: Plan, success: bool, key: Key)
    requires Acknowledged(s.dir) && k in s.flights && key in VisibleFile(s.dir)
    requires s.now < VisibleFile(s.dir)[key].expiresAt <= s.now + c.retention
    ensures StillLive(s.dir, Store(c, s, k, p, success).dir, key)
  {
    CommitIsDurable(s.dir, s.reserved, k, EntryNow(c, s, success), s.now, c.maxRecords, p);
  }

  /** No step evicts a live record, except that a power loss may undo a write nobody was told about. */
  lemma NoEviction(c: Config, s: System, e: Event, key: Key)
    requires Acknowledged(s.dir) && !e.LosePower?
    requires key in VisibleFile(s.dir) && s.now < VisibleFile(s.dir)[key].expiresAt <= s.now + c.retention
    ensures StillLive(s.dir, Step(c, s, e).dir, key)
  {
    match e
    case FirstGet(k, p) => if At(s, k, Fresh) { LookUpEvictsNothing(s, k, p, Queued, key); }
    case SecondGet(k, p) => if At(s, k, Seated) { LookUpEvictsNothing(s, k, p, Checked, key); }
    case Reserve(k, p) => if At(s, k, Checked) { ReserveEvictsNothing(c, s, k, p, key); }
    case Observe(k, p) => if At(s, k, Reserved) { StoreEvictsNothing(c, s, k, p, false, key); }
    case Commit(k, p) => if k in s.flights && s.flights[k].stage.Woken? { StoreEvictsNothing(c, s, k, p, true, key); }
    case _ =>
  }

  /** Live records, in the visible file and in whatever a power loss may leave, never exceed the bound
      together with the keys that hold a slot. */
  lemma NeverOverCapacity(c: Config, start: int, events: seq<Event>, i: nat)
    requires i < |Run(c, Inited(c, start), events).dir.data|
    ensures var t := Run(c, Inited(c, start), events);
            |Live(t.dir.data[i], t.now).Keys + t.reserved| <= c.maxRecords
  {
    var t := Run(c, Inited(c, start), events);
    assert CapacityInv(c, t);
  }

  /** Slots do not leak: a reserved key always belongs to its own live flight, one that has the seat and will
      commit or release it; so a seat never has two, and none is left when no flight is. */
  lemma NoLeakedSlots(c: Config, start: int, events: seq<Event>)
    ensures var t := Run(c, Inited(c, start), events);
            && (forall k :: k in t.reserved ==>
                  && k in t.flights && HoldsSlot(t.flights[k].stage)
                  && t.flights[k].seat in t.seats && t.seats[t.flights[k].seat] == k)
            && (forall k, l :: k in t.reserved && l in t.reserved && t.flights[k].seat == t.flights[l].seat ==> k == l)
            && (t.flights == map[] ==> t.reserved == {})
  {
    var t := Run(c, Inited(c, start), events);
    assert FlightInv(t);
    assert t.flights == map[] ==> forall k :: k !in t.reserved;
  }

  // ------------------------------------------------------------------ when nothing fails

  /** The steps of a request that is alone on its seat, until it holds a capacity slot. */
  function ToTheSlot(key: Key, seat: Seat): seq<Event> {
    [Arrive(key, seat), FirstGet(key, AllWorks), Enter(key), SecondGet(key, AllWorks), Reserve(key, AllWorks)]
  }

  function Steps(c: Config, s: System, events: seq<Event>): System
    decreases |events|
  {
    if events == [] then s else Steps(c, Step(c, s, events[0]), events[1..])
  }

  /** No flight and no live record of the key, a free seat and room: what an undisturbed request needs. */
  ghost predicate MayBeServed(c: Config, s: System, key: Key, seat: Seat) {
    && key !in s.flights && seat !in s.seats && key !in s.reserved && Acknowledged(s.dir)
    && !Full(s.dir, s.reserved, key, s.now, c.maxRecords) && key !in LiveKeys(VisibleFile(s.dir), s.now)
  }

  /** The flight of `key` is over: it is no longer shared, and its slot and its seat are free. */
  predicate IsOver(s: System, t: System, seat: Seat) {
    t.flights == s.flights && t.reserved == s.reserved && seat !in t.seats && t.now == s.now
  }

  /** A request that nothing disturbs wakes exactly once and records it, durable for its whole retention. */
  lemma UndisturbedRequestWakesOnce(c: Config, s: System, key: Key, seat: Seat)
    requires MayBeServed(c, s, key, seat) && key !in UnsafeKeys
    ensures var t := Step(c, Step(c, Steps(c, s, ToTheSlot(key, seat)), Send(key, true)), Commit(key, AllWorks));
            && IsOver(s, t, seat) && t.log == s.log + [Woke(key, s.now)]
            && t.dir.data == [VisibleFile(t.dir)] && key in VisibleFile(t.dir)
            && VisibleFile(t.dir)[key] == Entry(true, s.now, s.now + c.retention)
  {
    hide Steps, Store, Acknowledged, LiveKeys, Full;
    GetsTheSlot(c, s, key, seat);
    var t := Step(c, Steps(c, s, ToTheSlot(key, seat)), Send(key, true));
    StoresAndEnds(c, s, t, key, seat, Woken(s.now), true);
  }

  /** A request that is only to be observed is recorded as not woken, without a wake. */
  lemma UndisturbedObservationIsRecorded(c: Config, s: System, key: Key, seat: Seat)
    requires MayBeServed(c, s, key, seat) && key !in UnsafeKeys
    ensures var t := Step(c, Steps(c, s, ToTheSlot(key, seat)), Observe(key, AllWorks));
            && IsOver(s, t, seat) && t.log == s.log
            && t.dir.data == [VisibleFile(t.dir)] && key in VisibleFile(t.dir)
            && VisibleFile(t.dir)[key] == Entry(false, s.now, s.now + c.retention)
  {
    hide Steps, Store, Acknowledged, LiveKeys, Full;
    GetsTheSlot(c, s, key, seat);
    StoresAndEnds(c, s, Steps(c, s, ToTheSlot(key, seat)), key, seat, Reserved, false);
  }

  /** A wake that fails leaves no record and may be tried again at once. */
  lemma FailedWakeMayBeRetried(c: Config, s: System, key: Key, seat: Seat)
    requires MayBeServed(c, s, key, seat)
    ensures var t := Step(c, Step(c, Steps(c, s, ToTheSlot(key, seat)), Send(key, false)), Release(key));
            IsOver(s, t, seat) && t.log == s.log && VisibleFile(t.dir) == VisibleFile(s.dir) && MayBeServed(c, t, key, seat)
  {
    hide Steps, Acknowledged, LiveKeys;
    GetsTheSlot(c, s, key, seat);
    var w := Steps(c, s, ToTheSlot(key, seat));
    var t := Step(c, Step(c, w, Send(key, false)), Release(key));
    assert t.flights == s.flights;
    assert s.reserved + {key} - {key} == s.reserved;
  }

  lemma GetsTheSlot(c: Config, s: System, key: Key, seat: Seat)
    requires MayBeServed(c, s, key, seat)
    ensures var t := Steps(c, s, ToTheSlot(key, seat));
            && t.flights == s.flights[key := Flight(seat, Reserved)] && t.seats == s.seats[seat := key]
            && t.log == s.log && t.reserved == s.reserved + {key} && t.now == s.now
            && VisibleFile(t.dir) == VisibleFile(s.dir) && Acknowledged(t.dir)
  {
    hide Step, Steps, Acknowledged, LiveKeys, Full;
    var e := ToTheSlot(key, seat);
    var s1 := Step(c, s, e[0]);
    var s2 := Step(c, s1, e[1]);
    var s3 := Step(c, s2, e[2]);
    var s4 := Step(c, s3, e[3]);
    LooksUpTwice(c, s, key, seat);
    SameFileSameRoom(s.dir, s4.dir, s.reserved, key, s.now, c.maxRecords);
    Reserves(c, s4, key, Flight(seat, Checked));
    StepsFrom(c, s, e, 0);
    StepsFrom(c, s1, e, 1);
    StepsFrom(c, s2, e, 2);
    StepsFrom(c, s3, e, 3);
    StepsFrom(c, s4, e, 4);
    assert e[0..] == e && e[5..] == [];
    NoSteps(c, Step(c, s4, e[4]));
  }

  lemma SameFileSameRoom(d: Dir, after: Dir, reserved: set<Key>, key: Key, now: int, maxRecords: nat)
    requires VisibleFile(d) == VisibleFile(after)
    ensures Full(d, reserved, key, now, maxRecords) == Full(after, reserved, key, now, maxRecords)
  {
  }

  lemma NoSteps(c: Config, s: System)
    ensures Steps(c, s, []) == s
  {
  }

  lemma StepsFrom(c: Config, s: System, e: seq<Event>, k: nat)
    requires k < |e|
    ensures Steps(c, s, e[k..]) == Steps(c, Step(c, s, e[k]), e[k + 1..])
  {
    assert e[k..][1..] == e[k + 1..];
  }

  /** Both lookups miss: the flight has the seat, and nothing else has changed. */
  lemma LooksUpTwice(c: Config, s: System, key: Key, seat: Seat)
    requires key !in s.flights && seat !in s.seats && Acknowledged(s.dir) && key !in LiveKeys(VisibleFile(s.dir), s.now)
    ensures var e := ToTheSlot(key, seat);
            var t := Step(c, Step(c, Step(c, Step(c, s, e[0]), e[1]), e[2]), e[3]);
            && t.flights == s.flights[key := Flight(seat, Checked)] && t.seats == s.seats[seat := key]
            && t.log == s.log && t.reserved == s.reserved && t.now == s.now
            && VisibleFile(t.dir) == VisibleFile(s.dir) && Acknowledged(t.dir)
  {
    hide GetStep, Acknowledged;
    var e := ToTheSlot(key, seat);
    var s1 := Step(c, s, e[0]);
    GetFindsExactly(s1.dir, s1.reserved, key, s1.now);
    GetKeepsFile(s1.dir, s1.reserved, key, s1.now);
    var s2 := Step(c, s1, e[1]);
    assert s2.flights == s.flights[key := Flight(seat, Queued)] && s2.seats == s.seats;
    var s3 := Step(c, s2, e[2]);
    GetFindsExactly(s3.dir, s3.reserved, key, s3.now);
    GetKeepsFile(s3.dir, s3.reserved, key, s3.now);
  }

  lemma Reserves(c: Config, s: System, key: Key, f: Flight)
    requires key in s.flights && s.flights[key] == f && f.stage == Checked && Acknowledged(s.dir)
    requires !Full(s.dir, s.reserved, key, s.now, c.maxRecords) && key !in LiveKeys(VisibleFile(s.dir), s.now)
    ensures var t := Step(c, s, Reserve(key, AllWorks));
            && t.flights == s.flights[key := f.(stage := Reserved)] && t.seats == s.seats
            && t.log == s.log && t.reserved == s.reserved + {key} && t.now == s.now
            && VisibleFile(t.dir) == VisibleFile(s.dir) && Acknowledged(t.dir)
  {
    hide ReserveStep, Acknowledged, Full;
    ReserveSucceedsExactly(s.dir, s.reserved, key, s.now, c.maxRecords, AllWorks);
    ReserveKeepsFile(s.dir, s.reserved, key, s.now, c.maxRecords);
  }

  /** The flight that holds its slot and seat since `s` stores its outcome. */
  lemma StoresAndEnds(c: Config, s: System, t: System, key: Key, seat: Seat, stage: Stage, success: bool)
    requires key !in s.flights && key !in s.reserved && seat !in s.seats && key !in UnsafeKeys && Acknowledged(t.dir)
    requires t.flights == s.flights[key := Flight(seat, stage)] && t.seats == s.seats[seat := key]
    requires t.reserved == s.reserved + {key} && t.now == s.now
    ensures var u := Store(c, t, key, AllWorks, success);
            && IsOver(s, u, seat) && u.log == t.log
            && u.dir.data == [VisibleFile(u.dir)] && key in VisibleFile(u.dir)
            && VisibleFile(u.dir)[key] == Entry(success, s.now, s.now + c.retention)
  {
    hide CommitStep, Acknowledged, GetStep;
    var e := EntryNow(c, t, success);
    CommitSucceedsExactly(t.dir, t.reserved, key, e, t.now, c.maxRecords, AllWorks, key, t.now);
    CommitIsDurable(t.dir, t.reserved, key, e, t.now, c.maxRecords, AllWorks);
    assert t.flights - {key} == s.flights;
    assert t.reserved - {key} == s.reserved;
  }

  /** The process is gone, with all its memory; what it had not committed is marked. */
  predicate IsDead(s: System, t: System) {
    t.flights == map[] && t.seats == map[] && t.reserved == {} && t.log == s.log + [Stopped(Uncommitted(s))]
  }

  /** The flight of `key` has left its seat, its slot and the sharing table, and the others are as they were. */
  ghost predicate GaveUp(s: System, t: System, key: Key) {
    && t.flights == s.flights - {key} && t.reserved == s.reserved - {key}
    && (forall seat :: seat in t.seats <==> seat in s.seats && s.seats[seat] != key)
    && (forall seat :: seat in t.seats ==> t.seats[seat] == s.seats[seat])
  }

  /** When recording an outcome fails, a wake that was sent is marked as unrecorded and nothing else is; the flight
      gives up its slot and its seat, unless the process is dead. */
  lemma FailedStoreGivesUp(c: Config, s: System, key: Key, p: Plan, success: bool)
    requires if success then key in s.flights && s.flights[key].stage.Woken? else At(s, key, Reserved)
    ensures var out := CommitStep(s.dir, s.reserved, key, EntryNow(c, s, success), s.now, c.maxRecords, p).out;
            var t := Step(c, s, if success then Commit(key, p) else Observe(key, p));
            && (out == Failed(Died) ==> IsDead(s, t))
            && (out != Stored && out != Failed(Died) ==>
                  var u := Step(c, t, Release(key));
                  u.log == s.log + (if success then [CommitFailed(key)] else []) && GaveUp(s, u, key))
  {
    CommitReserves(s.dir, s.reserved, key, EntryNow(c, s, success), s.now, c.maxRecords, p);
    hide CommitStep;
  }

  lemma CommitReserves(d: Dir, reserved: set<Key>, key: Key, e: Entry, now: int, maxRecords: nat, p: Plan)
    ensures var a := CommitStep(d, reserved, key, e, now, maxRecords, p); a.out != Stored && a.out != Failed(Died) ==> a.reserved == reserved
  {
    hide ReadFile, WriteFile;
  }

  /** A lookup that fails, a slot that is refused or fails, a call that gives up in the queue and a state that cannot
      be written end the flight without a wake. */
  lemma FailedReadGivesUp(c: Config, s: System, key: Key, p: Plan)
    requires key !in s.reserved
    ensures var fate := GetStep(s.dir, s.reserved, key, s.now, p).out.fate;
            forall e :: e in {FirstGet(key, p), SecondGet(key, p)} && (if e.FirstGet? then At(s, key, Fresh) else At(s, key, Seated)) ==>
              (fate == Died ==> IsDead(s, Step(c, s, e))) && (fate == Threw ==> GaveUp(s, Step(c, s, e), key) && Step(c, s, e).log == s.log)
    ensures var out := ReserveStep(s.dir, s.reserved, key, s.now, c.maxRecords, p).out;
            At(s, key, Checked) ==>
              var t := Step(c, s, Reserve(key, p));
              (out == Failed(Died) ==> IsDead(s, t)) && (out != Stored && out != Failed(Died) ==> GaveUp(s, t, key) && t.log == s.log)
    ensures At(s, key, Queued) ==> GaveUp(s, Step(c, s, Abandon(key)), key) && Step(c, s, Abandon(key)).log == s.log
    ensures At(s, key, Checked) ==> GaveUp(s, Step(c, s, Unwritable(key)), key) && Step(c, s, Unwritable(key)).log == s.log
  {
    ReserveReserves(s.dir, s.reserved, key, s.now, c.maxRecords, p);
    hide GetStep, ReserveStep;
    assert s.reserved - {key} == s.reserved;
  }

  lemma ReserveReserves(d: Dir, reserved: set<Key>, key: Key, now: int, maxRecords: nat, p: Plan)
    ensures var a := ReserveStep(d, reserved, key, now, maxRecords, p); a.out != Stored && a.out != Failed(Died) ==> a.reserved == reserved
  {
    hide ReadFile;
  }

  /** A request whose key is on record ends at its first lookup, without a wake. */
  lemma DuplicateIsNotWoken(c: Config, s: System, key: Key, seat: Seat)
    requires key !in s.flights && key in LiveKeys(VisibleFile(s.dir), s.now)
    ensures var t := Step(c, Step(c, s, Arrive(key, seat)), FirstGet(key, AllWorks));
            && t.flights == s.flights && t.log == s.log && key in t.acked && t.acked[key] == VisibleFile(s.dir)[key]
  {
    hide GetStep;
    var u := Step(c, s, Arrive(key, seat));
    GetFindsExactly(u.dir, u.reserved, key, u.now);
    assert u.flights - {key} == s.flights;
  }

  lemma GetKeepsFile(d: Dir, reserved: set<Key>, key: Key, now: int)
    requires Acknowledged(d)
    ensures var g := GetStep(d, reserved, key, now, AllWorks);
            VisibleFile(g.dir) == VisibleFile(d) && Acknowledged(g.dir) && g.reserved == reserved
  {
    UndisturbedRead(d);
    ReadIsDurable(d, AllWorks);
  }

  lemma ReserveKeepsFile(d: Dir, reserved: set<Key>, key: Key, now: int, maxRecords: nat)
    requires Acknowledged(d)
    ensures var a := ReserveStep(d, reserved, key, now, maxRecords, AllWorks); VisibleFile(a.dir) == VisibleFile(d) && Acknowledged(a.dir)
  {
    UndisturbedRead(d);
    ReadIsDurable(d, AllWorks);
  }
}
