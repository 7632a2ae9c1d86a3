/** The at-most-once adapter protocol (retry.ts) as a state machine: any number of workers run it
    against one durable correlation record, and any of them may die between two steps. */
module Adapter {
  import opened Common
  import opened Correlation

  // ------------------------------------------------------------------ tasks and reconciliation

  /** The correlation marker a task subject carries. */
  datatype Marker = Marker(correlationId: string, fingerprint: string)

  /** A visible task: the markers its subject contains, whether root and marker placement are
      well formed, and the fingerprint of the request rebuilt from it. */
  datatype Task = Task(id: string, markers: set<Marker>, from: string, to: string, wellFormed: bool, fingerprint: string)

  function MarkerFor(id: Identity): Marker { Marker(id.correlationId, id.requestFingerprint) }

  /** validateCorrelatedTask does not throw. */
  predicate Matches(t: Task, r: Record) {
    && (r.taskId.Some? ==> t.id == r.taskId.value)
    && t.from == r.id.requester && t.to == r.id.responder
    && t.wellFormed && MarkerFor(r.id) in t.markers
    && t.fingerprint == r.id.requestFingerprint
  }

  predicate MarkedTask(t: Task, r: Record) { MarkerFor(r.id) in t.markers }

  /** Every marked task of every listing matches. */
  ghost predicate NoContradiction(listings: seq<seq<Task>>, r: Record) {
    forall i, j :: 0 <= i < |listings| && 0 <= j < |listings[i]| && MarkedTask(listings[i][j], r) ==> Matches(listings[i][j], r)
  }

  /** `id` is a marked task of some listing. */
  ghost predicate Candidate(listings: seq<seq<Task>>, r: Record, id: string) {
    exists i, j :: 0 <= i < |listings| && 0 <= j < |listings[i]| && MarkedTask(listings[i][j], r) && listings[i][j].id == id
  }

  /** The one candidate the listings agree on. */
  ghost predicate Agrees(listings: seq<seq<Task>>, r: Record, id: string) {
    && NoContradiction(listings, r)
    && forall x :: Candidate(listings, r, x) <==> x == id
  }

  const MaxAttempts := 10

  datatype ReconcileError = BadAttempts | Contradiction | NoTask | SeveralTasks

  /** One pass over one listing: contradictions are reported, marked tasks are collected by id. */
  method CollectMarked(listed: seq<Task>, r: Record, before: map<string, Task>) returns (clean: bool, after: map<string, Task>)
    requires forall id :: id in before ==> before[id].id == id
    ensures clean <==> forall j :: 0 <= j < |listed| && MarkedTask(listed[j], r) ==> Matches(listed[j], r)
    ensures clean ==> forall id :: id in after <==> id in before || exists j :: 0 <= j < |listed| && MarkedTask(listed[j], r) && listed[j].id == id
    ensures clean ==> forall id :: id in after ==> after[id].id == id
    ensures clean ==> forall id :: id in after && (id !in before || after[id] != before[id]) ==> after[id] in listed && Matches(after[id], r)
  {
    after := before;
    clean := forall j :: 0 <= j < |listed| && MarkedTask(listed[j], r) ==> Matches(listed[j], r);
    if !clean { return; }
    for k := 0 to |listed|
      invariant forall id :: id in after <==> id in before || exists j :: 0 <= j < k && MarkedTask(listed[j], r) && listed[j].id == id
      invariant forall id :: id in after ==> after[id].id == id
      invariant forall id :: id in after && (id !in before || after[id] != before[id]) ==> after[id] in listed && Matches(after[id], r)
    {
      if MarkedTask(listed[k], r) {
        after := after[listed[k].id := listed[k]];
      }
    }
  }

  /** reconcileTask: adopts exactly when the bounded listings agree on one matching task. */
  method ReconcileTask(listings: seq<seq<Task>>, r: Record, attempts: int) returns (res: Result<Task, ReconcileError>)
    requires 1 <= attempts <= MaxAttempts ==> attempts <= |listings|
    ensures res == Err(BadAttempts) <==> !(1 <= attempts <= MaxAttempts)
    ensures 1 <= attempts <= MaxAttempts ==> (res == Err(Contradiction) <==> !NoContradiction(listings[..attempts], r))
    ensures res.Ok? ==> Agrees(listings[..attempts], r, res.value.id) && Matches(res.value, r)
    ensures 1 <= attempts <= MaxAttempts && (exists id :: Agrees(listings[..attempts], r, id)) ==> res.Ok?
    ensures res == Err(NoTask) ==> forall id :: !Candidate(listings[..attempts], r, id)
    ensures res == Err(SeveralTasks) ==> exists a, b :: a != b && Candidate(listings[..attempts], r, a) && Candidate(listings[..attempts], r, b)
  {
    if attempts < 1 || attempts > MaxAttempts { return Err(BadAttempts); }
    ghost var seen := listings[..attempts];
    var candidates: map<string, Task> := map[];
    var turn := 0;
    while turn < attempts
      invariant 0 <= turn <= attempts
      invariant NoContradiction(seen[..turn], r)
      invariant forall id :: id in candidates <==> Candidate(seen[..turn], r, id)
      invariant forall id :: id in candidates ==> candidates[id].id == id && Matches(candidates[id], r)
    {
      assert seen[..turn + 1] == seen[..turn] + [listings[turn]];
      var clean, after := CollectMarked(listings[turn], r, candidates);
      if !clean {
        var j :| 0 <= j < |listings[turn]| && MarkedTask(listings[turn][j], r) && !Matches(listings[turn][j], r);
        assert seen[turn][j] == listings[turn][j];
        return Err(Contradiction);
      }
      ExtendListings(seen[..turn], listings[turn], r);
      candidates := after;
      turn := turn + 1;
    }
    assert seen[..turn] == seen;
    if candidates == map[] {
      assert forall id :: Agrees(listings[..attempts], r, id) ==> Candidate(listings[..attempts], r, id);
      return Err(NoTask);
    }
    var id :| id in candidates;
    if candidates.Keys == {id} {
      return Ok(candidates[id]);
    }
    assert candidates.Keys == {id} + (candidates.Keys - {id});
    ghost var other :| other in candidates.Keys - {id};
    return Err(SeveralTasks);
  }

  lemma ExtendListings(before: seq<seq<Task>>, listed: seq<Task>, r: Record)
    ensures NoContradiction(before + [listed], r) <==>
              NoContradiction(before, r) && forall j :: 0 <= j < |listed| && MarkedTask(listed[j], r) ==> Matches(listed[j], r)
    ensures forall id :: Candidate(before + [listed], r, id) <==>
              Candidate(before, r, id) || exists j :: 0 <= j < |listed| && MarkedTask(listed[j], r) && listed[j].id == id
  {
    var all := before + [listed];
    assert all[|before|] == listed;
    assert forall i :: 0 <= i < |before| ==> all[i] == before[i];
    forall id | Candidate(before, r, id) ensures Candidate(all, r, id) {
      var i, j :| 0 <= i < |before| && 0 <= j < |before[i]| && MarkedTask(before[i][j], r) && before[i][j].id == id;
      assert all[i][j].id == id;
    }
  }

  // ------------------------------------------------------------------ workers and the service

  /** How far a worker inside `save` has come; it holds the lock at every stage. */
  datatype Stage = Locked | Renamed | Synced

  datatype Local =
    | Idle
    | Saving(next: Record, stage: Stage)
    | Returned(rec: Record)               // save returned; the effect of rec.phase comes next
    | Answered(rec: Record, reply: string)

  /** The outside world: every external call ever made, and every task that can be listed. */
  datatype Service = Service(
    createCalls: nat, created: seq<Task>, foreign: seq<Task>,
    inputCalls: seq<string>, commitCalls: nat, evidence: set<string>)

  /** `history` records every version that became durable. */
  datatype System = System(disk: Disk, locals: map<nat, Local>, svc: Service, history: seq<Record>)

  const Start := System(Disk(None, [], None), map[], Service(0, [], [], [], 0, {}), [])

  function LocalOf(s: System, w: nat): Local {
    if w in s.locals then s.locals[w] else Idle
  }

  /** What one external call did: it may take effect, and the answer may still get lost. */
  datatype Outcome = Outcome(task: Option<Task>, evidence: Option<string>, answered: bool)

  /** One step of one worker, of the service, or of the machine. Workers may start an operation from
      any record they hold, however stale. */
  datatype Event =
    | BeginFirst(w: nat, first: Record)
    | BeginCreate(w: nat, from: Record, stamp: int)
    | BeginAdopt(w: nat, from: Record, listings: seq<seq<Task>>, id: string, clock: int)
    | BeginAskInput(w: nat, from: Record, input: string, clock: int)
    | BeginAwait(w: nat, from: Record, clock: int)
    | BeginReceive(w: nat, from: Record, decision: DecisionEvidence, clock: int)
    | BeginResume(w: nat, from: Record, decision: DecisionEvidence, clock: int)
    | BeginFinish(w: nat, from: Record, decision: DecisionEvidence, proof: string, clock: int)
    | RenameStep(w: nat)
    | SyncStep(w: nat)
    | ReturnFromSave(w: nat)
    | ThrowInSave(w: nat)
    | Call(w: nat, outcome: Outcome)
    | Continue(w: nat, clock: int)
    | Kill(w: nat)
    | LosePower(keep: nat, keepLock: bool)
    | ForeignTask(task: Task)

  /** Enter `save(next)`: throws unless the lock is free and the visible record accepts `next`. */
  function Begin(s: System, w: nat, next: Option<Record>): System {
    if next.Some? && s.disk.lock.None? && MayFollow(Visible(s.disk), next.value)
    then s.(disk := Acquire(s.disk, w), locals := s.locals[w := Saving(next.value, Locked)])
    else s.(locals := s.locals[w := Idle])
  }

  /** The decision delivered is the one on record, in all that is compared. */
  predicate Delivers(from: Record, decision: DecisionEvidence) {
    Canonical(from.decisionEvidence) == Canonical(Some(decision))
  }

  /** The record an idle worker would save for a Begin event; None when the operation throws first.
      `ident` is the correlation under study. */
  ghost function NextRecord(ident: Identity, s: System, e: Event): Option<Record> {
    match e
    case BeginFirst(_, first) => if first.id == ident && first.phase == IntentCreated then Some(first) else None
    case BeginCreate(_, from, stamp) =>
      Transition(from, CreateAttempted, NoChanges.(createAttemptedAt := Some(stamp)), Some(stamp), stamp)
    case BeginAdopt(_, from, listings, id, clock) =>
      if Listable(s.svc, listings) && Agrees(listings, from, id)
      then Transition(from, TaskAdopted, NoChanges.(taskId := Some(id)), None, clock) else None
    case BeginAskInput(_, from, input, clock) =>
      Transition(from, InputRequestAttempted, NoChanges.(inputEvidence := Some(input)), None, clock)
    case BeginAwait(_, from, clock) => Transition(from, AwaitingInput, NoChanges, None, clock)
    case BeginReceive(_, from, decision, clock) =>
      Transition(from, DecisionReceived, NoChanges.(decisionEvidence := Canonical(Some(decision))), None, clock)
    case BeginResume(_, from, decision, clock) =>
      if Delivers(from, decision) then Transition(from, ResumeStarted, NoChanges, None, clock) else None
    case BeginFinish(_, from, decision, proof, clock) =>
      if Delivers(from, decision) && proof in s.svc.evidence
      then Transition(from, Resumed, NoChanges.(resumeEvidence := Some(proof)), None, clock) else None
    case _ => None
  }

  /** Listings show only tasks that exist; a cached listing may miss some. */
  ghost predicate Listable(svc: Service, listings: seq<seq<Task>>) {
    forall i, j :: 0 <= i < |listings| && 0 <= j < |listings[i]| ==> listings[i][j] in svc.created || listings[i][j] in svc.foreign
  }

  /** The external effect that follows a durable attempt. Other phases have none. */
  function Effect(s: System, w: nat, o: Outcome): System
    requires LocalOf(s, w).Returned?
  {
    var rec := LocalOf(s, w).rec;
    match rec.phase
    case CreateAttempted =>
      var made := if o.task.Some? && MarkerFor(rec.id) in o.task.value.markers then [o.task.value] else [];
      var svc := s.svc.(createCalls := s.svc.createCalls + 1, created := s.svc.created + made);
      var l := if made != [] && o.answered && Matches(made[0], rec) then Answered(rec, made[0].id) else Idle;
      s.(svc := svc, locals := s.locals[w := l])
    case InputRequestAttempted =>
      var svc := s.svc.(inputCalls := s.svc.inputCalls + [if rec.taskId.Some? then rec.taskId.value else ""]);
      s.(svc := svc, locals := s.locals[w := if o.answered then Answered(rec, "") else Idle])
    case ResumeStarted =>
      var proof := if o.evidence.Some? then {o.evidence.value} else {};
      var svc := s.svc.(commitCalls := s.svc.commitCalls + 1, evidence := s.svc.evidence + proof);
      var l := if o.evidence.Some? && o.answered then Answered(rec, o.evidence.value) else Idle;
      s.(svc := svc, locals := s.locals[w := l])
    case _ => s.(locals := s.locals[w := Idle])
  }

  /** The save that follows an answered call. */
  function AfterAnswer(rec: Record, reply: string, clock: int): Option<Record> {
    match rec.phase
    case CreateAttempted => Transition(rec, TaskAdopted, NoChanges.(taskId := Some(reply)), None, clock)
    case InputRequestAttempted => Transition(rec, AwaitingInput, NoChanges, None, clock)
    case ResumeStarted => Transition(rec, Resumed, NoChanges.(resumeEvidence := Some(reply)), None, clock)
    case _ => None
  }

  /** One step; an event that is not enabled changes nothing. */
  ghost function Step(ident: Identity, s: System, e: Event): System {
    match e
    case RenameStep(w) =>
      var l := LocalOf(s, w);
      if l.Saving? && l.stage == Locked
      then s.(disk := Rename(s.disk, l.next), locals := s.locals[w := Saving(l.next, Renamed)]) else s
    case SyncStep(w) =>
      var l := LocalOf(s, w);
      if l.Saving? && l.stage == Renamed
      then s.(disk := SyncDirectory(s.disk), history := s.history + s.disk.pending, locals := s.locals[w := Saving(l.next, Synced)]) else s
    case ReturnFromSave(w) =>
      var l := LocalOf(s, w);
      if l.Saving? && l.stage == Synced
      then s.(disk := Release(s.disk), locals := s.locals[w := Returned(l.next)]) else s
    case ThrowInSave(w) =>
      if LocalOf(s, w).Saving? then s.(disk := Release(s.disk), locals := s.locals[w := Idle]) else s
    case Call(w, o) => if LocalOf(s, w).Returned? then Effect(s, w, o) else s
    case Continue(w, clock) =>
      var l := LocalOf(s, w);
      if l.Answered? then Begin(s, w, AfterAnswer(l.rec, l.reply, clock)) else s
    case Kill(w) => s.(locals := s.locals[w := Idle])
    case LosePower(keep, keepLock) =>
      if keep <= |s.disk.pending|
      then s.(disk := PowerLoss(s.disk, keep, keepLock), history := s.history + s.disk.pending[..keep], locals := map[]) else s
    case ForeignTask(t) =>
      if MarkerFor(ident) in t.markers then s else s.(svc := s.svc.(foreign := s.svc.foreign + [t]))
    case _ => if LocalOf(s, e.w).Idle? then Begin(s, e.w, NextRecord(ident, s, e)) else s
  }

  ghost function Run(ident: Identity, s: System, events: seq<Event>): System
    decreases |events|
  {
    if events == [] then s else Run(ident, Step(ident, s, events[0]), events[1..])
  }

  // ------------------------------------------------------------------ what every run keeps

  /** The worker is entitled to the external effect of phase `p`: its save of `p` has been synced. */
  predicate Token(l: Local, p: Phase) {
    || (l.Returned? && l.rec.phase == p)
    || (l.Saving? && l.stage == Synced && l.next.phase == p)
  }

  function Calls(svc: Service, p: Phase): nat {
    match p
    case CreateAttempted => svc.createCalls
    case InputRequestAttempted => |svc.inputCalls|
    case ResumeStarted => svc.commitCalls
    case _ => 0
  }

  /** The durable history and the unsynced tail form one legal chain of this correlation. */
  ghost predicate DiskInv(ident: Identity, s: System) {
    && Chain(s.history + s.disk.pending)
    && (forall i :: 0 <= i < |s.history + s.disk.pending| ==> (s.history + s.disk.pending)[i].id == ident)
    && s.disk.durable == (if s.history == [] then None else Some(Last(s.history)))
  }

  ghost predicate LocalInv(ident: Identity, s: System, w: nat) {
    match LocalOf(s, w)
    case Idle => true
    case Saving(next, stage) =>
      && s.disk.lock == Some(w)
      && (stage == Locked ==> MayFollow(Visible(s.disk), next) && (next.phase == IntentCreated ==> next.id == ident))
      && (stage == Renamed ==> s.disk.pending != [] && Last(s.disk.pending) == next)
      && (stage == Synced ==> s.disk.pending == [] && s.disk.durable == Some(next))
    case Returned(rec) => rec in s.history
    case Answered(rec, reply) =>
      && rec in s.history
      && (rec.phase == CreateAttempted ==> |s.svc.created| == 1 && s.svc.created[0].id == reply && IsRequested(s.svc.created[0], ident))
      && (rec.phase == ResumeStarted ==> reply in s.svc.evidence)
  }

  /** At most one worker, ever, gets to perform the effect of `p`, and only once `p` is durable. */
  ghost predicate EffectInv(s: System, p: Phase) {
    && Calls(s.svc, p) <= 1
    && (Calls(s.svc, p) == 1 ==> |s.history| > Index(p) && forall w :: !Token(LocalOf(s, w), p))
    && (forall w :: Token(LocalOf(s, w), p) ==> |s.history| > Index(p))
    && (forall w, v :: Token(LocalOf(s, w), p) && Token(LocalOf(s, v), p) ==> w == v)
  }

  /** The task is the one that was asked for: between the two participants, well formed, with the correlation's
      marker and the fingerprint of the request. */
  predicate IsRequested(t: Task, id: Identity) {
    && t.from == id.requester && t.to == id.responder && t.wellFormed
    && Marker(id.correlationId, id.requestFingerprint) in t.markers && t.fingerprint == id.requestFingerprint
  }

  /** Listings agree exactly when each marked task in them is one that was requested, and the one already adopted if
      there is one, and all of them, at least one, are the same. */
  lemma AgreesExactly(listings: seq<seq<Task>>, r: Record, id: string)
    ensures Agrees(listings, r, id) <==>
              && (forall i, j :: 0 <= i < |listings| && 0 <= j < |listings[i]| && MarkerFor(r.id) in listings[i][j].markers ==>
                    IsRequested(listings[i][j], r.id) && listings[i][j].id == id && (r.taskId.None? || r.taskId == Some(id)))
              && (exists i, j :: 0 <= i < |listings| && 0 <= j < |listings[i]| && MarkerFor(r.id) in listings[i][j].markers)
  {
    if Agrees(listings, r, id) {
      assert Candidate(listings, r, id);
      forall i, j | 0 <= i < |listings| && 0 <= j < |listings[i]| && MarkerFor(r.id) in listings[i][j].markers
        ensures IsRequested(listings[i][j], r.id) && listings[i][j].id == id && (r.taskId.None? || r.taskId == Some(id))
      {
        assert MarkedTask(listings[i][j], r) && Candidate(listings, r, listings[i][j].id);
      }
    }
    if i, j :| 0 <= i < |listings| && 0 <= j < |listings[i]| && MarkerFor(r.id) in listings[i][j].markers && listings[i][j].id == id {
      assert MarkedTask(listings[i][j], r);
    }
  }

  /** What a record may claim about the outside world. */
  ghost predicate Truthful(svc: Service, r: Record) {
    && (r.taskId.Some? ==> |svc.created| == 1 && svc.created[0].id == r.taskId.value && IsRequested(svc.created[0], r.id))
    && (r.resumeEvidence.Some? ==> r.resumeEvidence.value in svc.evidence)
  }

  /** Input was only ever requested for the created task. */
  predicate InputsOnTask(svc: Service) {
    svc.inputCalls == [] || (|svc.created| == 1 && svc.inputCalls == [svc.created[0].id])
  }

  ghost predicate WorldInv(ident: Identity, s: System) {
    && |s.svc.created| <= s.svc.createCalls
    && |s.svc.evidence| <= s.svc.commitCalls
    && (forall i :: 0 <= i < |s.svc.foreign| ==> MarkerFor(ident) !in s.svc.foreign[i].markers)
    && (forall i :: 0 <= i < |s.history| ==> Truthful(s.svc, s.history[i]))
    && (forall i :: 0 <= i < |s.disk.pending| ==> Truthful(s.svc, s.disk.pending[i]))
    && (forall w :: LocalOf(s, w).Saving? ==> Truthful(s.svc, LocalOf(s, w).next))
    && InputsOnTask(s.svc)
  }

  ghost predicate Inv(ident: Identity, s: System) {
    && DiskInv(ident, s)
    && (forall w :: LocalInv(ident, s, w))
    && EffectInv(s, CreateAttempted) && EffectInv(s, InputRequestAttempted) && EffectInv(s, ResumeStarted)
    && WorldInv(ident, s)
  }

  /** A step that hands out no new entitlement and makes no call keeps the effect invariant. */
  lemma EffectFrame(s: System, t: System, p: Phase)
    requires EffectInv(s, p)
    requires Calls(t.svc, p) == Calls(s.svc, p) && |t.history| >= |s.history|
    requires forall v :: Token(LocalOf(t, v), p) ==> Token(LocalOf(s, v), p)
    ensures EffectInv(t, p)
  {
  }

  /** The same for the three phases that have an effect. */
  lemma EffectsFrame(s: System, t: System)
    requires EffectInv(s, CreateAttempted) && EffectInv(s, InputRequestAttempted) && EffectInv(s, ResumeStarted)
    requires t.svc == s.svc && |t.history| >= |s.history|
    requires forall v, p :: Token(LocalOf(t, v), p) ==> Token(LocalOf(s, v), p)
    ensures EffectInv(t, CreateAttempted) && EffectInv(t, InputRequestAttempted) && EffectInv(t, ResumeStarted)
  {
    EffectFrame(s, t, CreateAttempted);
    EffectFrame(s, t, InputRequestAttempted);
    EffectFrame(s, t, ResumeStarted);
  }

  lemma BeginKeepsInv(ident: Identity, s: System, w: nat, next: Option<Record>)
    requires Inv(ident, s)
    requires LocalOf(s, w).Idle? || LocalOf(s, w).Answered?
    requires next.Some? && MayFollow(Visible(s.disk), next.value) ==>
               Truthful(s.svc, next.value) && (next.value.phase == IntentCreated ==> next.value.id == ident)
    ensures Inv(ident, Begin(s, w, next))
  {
    hide IsRequested, Chain, MayFollow;
    var t := Begin(s, w, next);
    assert forall v :: v != w ==> LocalOf(t, v) == LocalOf(s, v);
    forall v ensures LocalInv(ident, t, v) { assert LocalInv(ident, s, v); }
    EffectsFrame(s, t);
    assert DiskInv(ident, t);
    assert WorldInv(ident, t);
  }

  /** The version a save starts from is the chain's last element. */
  lemma VisibleIsLast(ident: Identity, s: System)
    requires DiskInv(ident, s)
    ensures Visible(s.disk) == (if s.history + s.disk.pending == [] then None else Some(Last(s.history + s.disk.pending)))
  {
  }

  lemma ChainGrows(h: seq<Record>, next: Record)
    requires Chain(h)
    requires MayFollow(if h == [] then None else Some(Last(h)), next)
    ensures Chain(h + [next])
  {
    var g := h + [next];
    assert forall i :: 0 <= i < |h| ==> g[i] == h[i];
  }

  lemma RenameKeepsInv(ident: Identity, s: System, w: nat)
    requires Inv(ident, s)
    requires LocalOf(s, w).Saving? && LocalOf(s, w).stage == Locked
    ensures Inv(ident, Step(ident, s, RenameStep(w)))
  {
    var t := Step(ident, s, RenameStep(w));
    var next := LocalOf(s, w).next;
    assert LocalInv(ident, s, w);
    assert forall v :: v != w ==> LocalOf(t, v) == LocalOf(s, v);
    forall v ensures LocalInv(ident, t, v) { assert LocalInv(ident, s, v); }
    EffectsFrame(s, t);
    assert DiskInv(ident, t) by { RenameKeepsDisk(ident, s, t, next); }
    assert WorldInv(ident, t);
  }

  lemma RenameKeepsDisk(ident: Identity, s: System, t: System, next: Record)
    requires DiskInv(ident, s) && MayFollow(Visible(s.disk), next)
    requires next.phase == IntentCreated ==> next.id == ident
    requires t.disk.durable == s.disk.durable && t.history == s.history && t.disk.pending == s.disk.pending + [next]
    ensures DiskInv(ident, t)
  {
    VisibleIsLast(ident, s);
    var all := s.history + s.disk.pending;
    assert t.history + t.disk.pending == all + [next];
    ChainGrows(all, next);
    assert all != [] ==> Last(all).id == ident;
  }

  /** No worker is entitled to, or has performed, the effect of a phase that is not durable yet. */
  lemma UnsyncedPhaseIsFresh(ident: Identity, s: System, p: Phase)
    requires EffectInv(s, p) && |s.history| <= Index(p)
    ensures Calls(s.svc, p) == 0 && forall v :: !Token(LocalOf(s, v), p)
  {
  }

  /** The step that makes a save durable: the worker's entitlement is new, because the phase had not
      been durable before. */
  lemma SyncKeepsInv(ident: Identity, s: System, w: nat)
    requires Inv(ident, s)
    requires LocalOf(s, w).Saving? && LocalOf(s, w).stage == Renamed
    ensures Inv(ident, Step(ident, s, SyncStep(w)))
  {
    hide EffectInv, IsRequested, NextRecord, Begin;
    var t := Step(ident, s, SyncStep(w));
    var next := LocalOf(s, w).next;
    assert LocalInv(ident, s, w);
    assert forall v :: v != w ==> LocalOf(t, v) == LocalOf(s, v);
    var all := s.history + s.disk.pending;
    assert t.history + t.disk.pending == t.history == all;
    assert Index(next.phase) == |all| - 1 >= |s.history| by {
      ChainIsWriteOnce(all, |all| - 1, |all| - 1);
      assert Last(all) == next;
    }
    SyncLocals(ident, s, t, w);
    SyncEffect(ident, s, t, w, next, CreateAttempted);
    SyncEffect(ident, s, t, w, next, InputRequestAttempted);
    SyncEffect(ident, s, t, w, next, ResumeStarted);
    assert WorldInv(ident, t) by { HistoryGrows(ident, s, t, |s.disk.pending|); }
  }

  lemma SyncLocals(ident: Identity, s: System, t: System, w: nat)
    requires (forall v :: LocalInv(ident, s, v)) && LocalOf(s, w).Saving? && LocalOf(s, w).stage == Renamed
    requires t == Step(ident, s, SyncStep(w))
    ensures forall v :: LocalInv(ident, t, v)
  {
    assert LocalInv(ident, s, w);
    forall v ensures LocalInv(ident, t, v) {
      assert LocalInv(ident, s, v);
      assert v != w ==> LocalOf(t, v) == LocalOf(s, v);
    }
  }

  lemma SyncEffect(ident: Identity, s: System, t: System, w: nat, next: Record, p: Phase)
    requires EffectInv(s, p) && t.svc == s.svc && |t.history| == Index(next.phase) + 1 > |s.history|
    requires LocalOf(t, w) == Saving(next, Synced) && !Token(LocalOf(s, w), p)
    requires forall v :: v != w ==> LocalOf(t, v) == LocalOf(s, v)
    ensures EffectInv(t, p)
  {
    if next.phase == p {
      UnsyncedPhaseIsFresh(ident, s, p);
    } else {
      assert Index(next.phase) != Index(p) || next.phase == p;
      assert forall v :: Token(LocalOf(t, v), p) ==> Token(LocalOf(s, v), p);
      EffectFrame(s, t, p);
    }
  }

  /** Versions that were pending carry the same claims once they are durable. */
  lemma HistoryGrows(ident: Identity, s: System, t: System, keep: nat)
    requires WorldInv(ident, s) && keep <= |s.disk.pending|
    requires t.svc == s.svc && t.history == s.history + s.disk.pending[..keep] && t.disk.pending == []
    requires forall v :: LocalOf(t, v).Saving? ==> LocalOf(s, v).Saving? && LocalOf(t, v).next == LocalOf(s, v).next
    ensures WorldInv(ident, t)
  {
    forall i | 0 <= i < |t.history| ensures Truthful(t.svc, t.history[i]) {
      if i >= |s.history| { assert t.history[i] == s.disk.pending[i - |s.history|]; }
    }
  }

  lemma ReturnKeepsInv(ident: Identity, s: System, w: nat)
    requires Inv(ident, s)
    requires LocalOf(s, w).Saving? && LocalOf(s, w).stage == Synced
    ensures Inv(ident, Step(ident, s, ReturnFromSave(w)))
  {
    var t := Step(ident, s, ReturnFromSave(w));
    assert LocalInv(ident, s, w);
    assert forall v :: v != w ==> LocalOf(t, v) == LocalOf(s, v);
    forall v ensures LocalInv(ident, t, v) { assert LocalInv(ident, s, v); }
    EffectsFrame(s, t);
    assert DiskInv(ident, t);
    assert WorldInv(ident, t);
  }

  /** Workers may stop, by throwing or by dying, at any point. */
  lemma StopKeepsInv(ident: Identity, s: System, w: nat, t: System)
    requires Inv(ident, s)
    requires t.svc == s.svc && t.history == s.history && t.disk.(lock := None) == s.disk.(lock := None)
    requires t.disk.lock == s.disk.lock || s.disk.lock == Some(w)
    requires LocalOf(t, w) == Idle && forall v :: v != w ==> LocalOf(t, v) == LocalOf(s, v)
    ensures Inv(ident, t)
  {
    forall v ensures LocalInv(ident, t, v) { assert LocalInv(ident, s, v); }
    EffectsFrame(s, t);
    assert DiskInv(ident, t);
    assert WorldInv(ident, t);
  }

  lemma PowerLossKeepsInv(ident: Identity, s: System, keep: nat, keepLock: bool)
    requires Inv(ident, s) && keep <= |s.disk.pending|
    ensures Inv(ident, Step(ident, s, LosePower(keep, keepLock)))
  {
    var t := Step(ident, s, LosePower(keep, keepLock));
    assert forall v :: LocalOf(t, v) == Idle;
    EffectsFrame(s, t);
    assert DiskInv(ident, t) by { TruncateDisk(ident, s, t, keep); }
    HistoryGrows(ident, s, t, keep);
  }

  lemma TruncateDisk(ident: Identity, s: System, t: System, keep: nat)
    requires DiskInv(ident, s) && keep <= |s.disk.pending|
    requires t.history == s.history + s.disk.pending[..keep] && t.disk.pending == []
    requires t.disk.durable == (if keep == 0 then s.disk.durable else Some(s.disk.pending[keep - 1]))
    ensures DiskInv(ident, t)
  {
    var all := s.history + s.disk.pending;
    assert t.history + t.disk.pending == t.history == all[..|s.history| + keep];
    assert forall i :: 0 <= i < |t.history| ==> t.history[i] == all[i];
  }

  /** What holds after any call, given what its own phase establishes about the world. */
  lemma CallKeepsInv(ident: Identity, s: System, t: System, w: nat)
    requires Inv(ident, s) && LocalOf(s, w).Returned?
    requires t.disk == s.disk && t.history == s.history && t.svc.foreign == s.svc.foreign
    requires forall v :: v != w ==> LocalOf(t, v) == LocalOf(s, v)
    requires !LocalOf(t, w).Saving? && !LocalOf(t, w).Returned? && LocalInv(ident, t, w)
    requires forall p :: p in {CreateAttempted, InputRequestAttempted, ResumeStarted} ==>
               Calls(t.svc, p) == Calls(s.svc, p) + (if LocalOf(s, w).rec.phase == p then 1 else 0)
    requires t.svc.created == s.svc.created || s.svc.created == []
    requires s.svc.evidence <= t.svc.evidence && InputsOnTask(t.svc)
    requires |t.svc.created| <= t.svc.createCalls && |t.svc.evidence| <= t.svc.commitCalls
    ensures Inv(ident, t)
  {
    var phase := LocalOf(s, w).rec.phase;
    CallEffect(s, t, w, phase, CreateAttempted);
    CallEffect(s, t, w, phase, InputRequestAttempted);
    CallEffect(s, t, w, phase, ResumeStarted);
    assert DiskInv(ident, t);
    ClaimsSurvive(ident, s, t);
    CallLocals(ident, s, t, w);
  }

  lemma CreateCallKeepsInv(ident: Identity, s: System, w: nat, o: Outcome)
    requires Inv(ident, s) && LocalOf(s, w).Returned? && LocalOf(s, w).rec.phase == CreateAttempted
    ensures Inv(ident, Effect(s, w, o))
  {
    var t := Effect(s, w, o);
    assert LocalInv(ident, s, w) && Token(LocalOf(s, w), CreateAttempted);
    RecordInHistory(ident, s, LocalOf(s, w).rec);
    NothingBeforeCreate(ident, s);
    CallKeepsInv(ident, s, t, w);
  }

  lemma InputCallKeepsInv(ident: Identity, s: System, w: nat, o: Outcome)
    requires Inv(ident, s) && LocalOf(s, w).Returned? && LocalOf(s, w).rec.phase == InputRequestAttempted
    ensures Inv(ident, Effect(s, w, o))
  {
    var t := Effect(s, w, o);
    assert LocalInv(ident, s, w) && Token(LocalOf(s, w), InputRequestAttempted);
    RecordInHistory(ident, s, LocalOf(s, w).rec);
    CallKeepsInv(ident, s, t, w);
  }

  lemma CommitCallKeepsInv(ident: Identity, s: System, w: nat, o: Outcome)
    requires Inv(ident, s) && LocalOf(s, w).Returned? && LocalOf(s, w).rec.phase == ResumeStarted
    ensures Inv(ident, Effect(s, w, o))
  {
    var t := Effect(s, w, o);
    assert LocalInv(ident, s, w) && Token(LocalOf(s, w), ResumeStarted);
    assert s.svc.commitCalls == 0 && s.svc.evidence == {};
    CallKeepsInv(ident, s, t, w);
  }

  lemma EffectKeepsInv(ident: Identity, s: System, w: nat, o: Outcome)
    requires Inv(ident, s) && LocalOf(s, w).Returned?
    ensures Inv(ident, Effect(s, w, o))
  {
    match LocalOf(s, w).rec.phase
    case CreateAttempted => CreateCallKeepsInv(ident, s, w, o);
    case InputRequestAttempted => InputCallKeepsInv(ident, s, w, o);
    case ResumeStarted => CommitCallKeepsInv(ident, s, w, o);
    case _ =>
      var t := Effect(s, w, o);
      StopKeepsInv(ident, s, w, t);
  }

  /** One call uses up the one entitlement. */
  lemma CallEffect(s: System, t: System, w: nat, phase: Phase, p: Phase)
    requires EffectInv(s, p) && t.history == s.history
    requires forall v :: v != w ==> LocalOf(t, v) == LocalOf(s, v)
    requires Token(LocalOf(s, w), phase) && !Token(LocalOf(t, w), p)
    requires Calls(t.svc, p) == Calls(s.svc, p) + (if phase == p then 1 else 0)
    ensures EffectInv(t, p)
  {
    if phase == p {
      assert Calls(s.svc, p) == 0;
      assert forall v :: Token(LocalOf(t, v), p) ==> Token(LocalOf(s, v), p) && v != w;
    } else {
      assert forall v :: Token(LocalOf(t, v), p) ==> Token(LocalOf(s, v), p);
    }
  }

  lemma CallLocals(ident: Identity, s: System, t: System, w: nat)
    requires (forall v :: LocalInv(ident, s, v)) && LocalInv(ident, t, w)
    requires t.disk == s.disk && t.history == s.history && s.svc.evidence <= t.svc.evidence
    requires t.svc.created == s.svc.created || s.svc.created == []
    requires forall v :: v != w ==> LocalOf(t, v) == LocalOf(s, v)
    ensures forall v :: LocalInv(ident, t, v)
  {
    forall v ensures LocalInv(ident, t, v) { assert LocalInv(ident, s, v); }
  }

  lemma RecordInHistory(ident: Identity, s: System, rec: Record)
    requires DiskInv(ident, s) && WorldInv(ident, s) && rec in s.history
    ensures ValidRecord(rec) && rec.id == ident && Truthful(s.svc, rec)
  {
    var k :| 0 <= k < |s.history| && s.history[k] == rec;
    assert (s.history + s.disk.pending)[k] == rec;
  }

  /** Before the first create call nothing claims a task. */
  lemma NothingBeforeCreate(ident: Identity, s: System)
    requires WorldInv(ident, s) && s.svc.createCalls == 0
    ensures s.svc.created == [] && s.svc.inputCalls == []
  {
  }

  /** A world that only grew, and grew a first task only when there was none, still backs every claim. */
  lemma ClaimsSurvive(ident: Identity, s: System, t: System)
    requires WorldInv(ident, s)
    requires t.history == s.history && t.disk == s.disk && t.svc.foreign == s.svc.foreign
    requires t.svc.created == s.svc.created || s.svc.created == []
    requires s.svc.evidence <= t.svc.evidence
    requires |t.svc.created| <= t.svc.createCalls && |t.svc.evidence| <= t.svc.commitCalls
    requires forall v :: LocalOf(t, v).Saving? ==> LocalOf(t, v) == LocalOf(s, v)
    requires InputsOnTask(t.svc)
    ensures WorldInv(ident, t)
  {
    assert forall r :: Truthful(s.svc, r) ==> Truthful(t.svc, r);
  }

  /** What an idle worker saves is truthful whenever the store would accept it. */
  lemma NextIsTruthful(ident: Identity, s: System, e: Event)
    requires Inv(ident, s)
    requires NextRecord(ident, s, e).Some? && MayFollow(Visible(s.disk), NextRecord(ident, s, e).value)
    ensures Truthful(s.svc, NextRecord(ident, s, e).value)
    ensures NextRecord(ident, s, e).value.phase == IntentCreated ==> NextRecord(ident, s, e).value.id == ident
  {
    var next := NextRecord(ident, s, e).value;
    VisibleIsLast(ident, s);
    if Visible(s.disk).Some? {
      var prior := Visible(s.disk).value;
      PriorIsTruthful(ident, s, prior);
      assert Adjacent(prior, next);
      if e.BeginAdopt? {
        AdoptedWasCreated(ident, s, e.from, e.listings, e.id);
      } else if e.BeginFinish? {
        assert next.resumeEvidence == Some(e.proof);
        assert next.taskId == prior.taskId;
      } else {
        PlainBegin(ident, s, e);
        assert next.taskId.Some? ==> prior.taskId.Some?;
      }
    }
  }

  /** Only adopting and finishing bring in a claim about the outside world. */
  lemma PlainBegin(ident: Identity, s: System, e: Event)
    requires NextRecord(ident, s, e).Some? && !e.BeginAdopt? && !e.BeginFinish? && !e.BeginFirst?
    ensures NextRecord(ident, s, e).value.phase != Resumed && NextRecord(ident, s, e).value.phase != TaskAdopted
  {
    match e
    case BeginCreate(_, from, stamp) =>
    case BeginAskInput(_, from, input, clock) =>
    case BeginAwait(_, from, clock) =>
    case BeginReceive(_, from, decision, clock) =>
    case BeginResume(_, from, decision, clock) =>
    case _ =>
  }

  lemma PriorIsTruthful(ident: Identity, s: System, prior: Record)
    requires DiskInv(ident, s) && WorldInv(ident, s) && Visible(s.disk) == Some(prior)
    ensures Truthful(s.svc, prior) && prior.id == ident && ValidRecord(prior)
  {
    var all := s.history + s.disk.pending;
    assert prior == all[|all| - 1];
    if s.disk.pending != [] { assert prior == s.disk.pending[|s.disk.pending| - 1]; }
    else { assert prior == s.history[|s.history| - 1]; }
  }

  /** A listing can only agree on the task that `create` made, since nobody else uses the marker. */
  lemma AdoptedWasCreated(ident: Identity, s: System, from: Record, listings: seq<seq<Task>>, id: string)
    requires Inv(ident, s) && from.id == ident
    requires Listable(s.svc, listings) && Agrees(listings, from, id)
    ensures |s.svc.created| == 1 && s.svc.created[0].id == id && IsRequested(s.svc.created[0], ident)
  {
    assert Candidate(listings, from, id);
    var i, j :| 0 <= i < |listings| && 0 <= j < |listings[i]| && MarkedTask(listings[i][j], from) && listings[i][j].id == id;
    assert listings[i][j] in s.svc.created;
    assert Calls(s.svc, CreateAttempted) <= 1;
  }

  lemma AnswerIsTruthful(ident: Identity, s: System, w: nat, clock: int)
    requires Inv(ident, s) && LocalOf(s, w).Answered?
    requires AfterAnswer(LocalOf(s, w).rec, LocalOf(s, w).reply, clock).Some?
    ensures Truthful(s.svc, AfterAnswer(LocalOf(s, w).rec, LocalOf(s, w).reply, clock).value)
  {
    assert LocalInv(ident, s, w);
    RecordInHistory(ident, s, LocalOf(s, w).rec);
  }

  lemma ForeignKeepsInv(ident: Identity, s: System, task: Task)
    requires Inv(ident, s) && MarkerFor(ident) !in task.markers
    ensures Inv(ident, Step(ident, s, ForeignTask(task)))
  {
    var t := Step(ident, s, ForeignTask(task));
    assert forall v :: LocalOf(t, v) == LocalOf(s, v);
    forall v ensures LocalInv(ident, t, v) { assert LocalInv(ident, s, v); }
    EffectFrame(s, t, CreateAttempted);
    EffectFrame(s, t, InputRequestAttempted);
    EffectFrame(s, t, ResumeStarted);
    assert DiskInv(ident, t);
    assert forall r :: Truthful(s.svc, r) ==> Truthful(t.svc, r);
  }

  predicate IsBegin(e: Event) {
    || e.BeginFirst? || e.BeginCreate? || e.BeginAdopt? || e.BeginAskInput? || e.BeginAwait?
    || e.BeginReceive? || e.BeginResume? || e.BeginFinish?
  }

  lemma BeginStepKeepsInv(ident: Identity, s: System, e: Event)
    requires Inv(ident, s) && IsBegin(e)
    ensures Inv(ident, Step(ident, s, e))
  {
    assert Step(ident, s, e) == if LocalOf(s, e.w).Idle? then Begin(s, e.w, NextRecord(ident, s, e)) else s;
    if LocalOf(s, e.w).Idle? {
      var next := NextRecord(ident, s, e);
      if next.Some? && MayFollow(Visible(s.disk), next.value) { NextIsTruthful(ident, s, e); }
      BeginKeepsInv(ident, s, e.w, next);
    }
  }

  lemma ContinueKeepsInv(ident: Identity, s: System, w: nat, clock: int)
    requires Inv(ident, s)
    ensures Inv(ident, Step(ident, s, Continue(w, clock)))
  {
    if LocalOf(s, w).Answered? {
      var next := AfterAnswer(LocalOf(s, w).rec, LocalOf(s, w).reply, clock);
      if next.Some? { AnswerIsTruthful(ident, s, w, clock); }
      BeginKeepsInv(ident, s, w, next);
    }
  }

  lemma SaveStepKeepsInv(ident: Identity, s: System, e: Event)
    requires Inv(ident, s) && (e.RenameStep? || e.SyncStep? || e.ReturnFromSave? || e.ThrowInSave?)
    ensures Inv(ident, Step(ident, s, e))
  {
    var l := LocalOf(s, e.w);
    if l.Saving? {
      assert LocalInv(ident, s, e.w);
      if e.ThrowInSave? {
        StopKeepsInv(ident, s, e.w, Step(ident, s, e));
      } else if e.RenameStep? && l.stage == Locked {
        RenameKeepsInv(ident, s, e.w);
      } else if e.SyncStep? && l.stage == Renamed {
        SyncKeepsInv(ident, s, e.w);
      } else if e.ReturnFromSave? && l.stage == Synced {
        ReturnKeepsInv(ident, s, e.w);
      }
    }
  }

  lemma StepKeepsInv(ident: Identity, s: System, e: Event)
    requires Inv(ident, s)
    ensures Inv(ident, Step(ident, s, e))
  {
    if IsBegin(e) {
      BeginStepKeepsInv(ident, s, e);
    } else if e.RenameStep? || e.SyncStep? || e.ReturnFromSave? || e.ThrowInSave? {
      SaveStepKeepsInv(ident, s, e);
    } else if e.Continue? {
      ContinueKeepsInv(ident, s, e.w, e.clock);
    } else if e.Call? {
      if LocalOf(s, e.w).Returned? { EffectKeepsInv(ident, s, e.w, e.outcome); }
    } else if e.Kill? {
      StopKeepsInv(ident, s, e.w, Step(ident, s, e));
    } else if e.LosePower? {
      if e.keep <= |s.disk.pending| { PowerLossKeepsInv(ident, s, e.keep, e.keepLock); }
    } else {
      if MarkerFor(ident) !in e.task.markers { ForeignKeepsInv(ident, s, e.task); }
    }
  }

  lemma {:induction false} RunKeepsInv(ident: Identity, s: System, events: seq<Event>)
    requires Inv(ident, s)
    ensures Inv(ident, Run(ident, s, events))
    decreases |events|
  {
    if events != [] {
      StepKeepsInv(ident, s, events[0]);
      RunKeepsInv(ident, Step(ident, s, events[0]), events[1..]);
    }
  }

  lemma StartIsGood(ident: Identity)
    ensures Inv(ident, Start)
  {
    assert forall v :: LocalOf(Start, v) == Idle;
  }

  // ------------------------------------------------------------------ main results

  /** In every interleaving of any number of workers, with deaths, errors and power losses anywhere:
      each of the three effects happens at most once, and only after its attempt was durable. */
  lemma AtMostOnce(ident: Identity, events: seq<Event>)
    ensures var s := Run(ident, Start, events);
            && s.svc.createCalls <= 1 && |s.svc.inputCalls| <= 1 && s.svc.commitCalls <= 1
            && (s.svc.createCalls == 1 ==> |s.history| > Index(CreateAttempted))
            && (s.svc.inputCalls != [] ==> |s.history| > Index(InputRequestAttempted))
            && (s.svc.commitCalls == 1 ==> |s.history| > Index(ResumeStarted))
  {
    StartIsGood(ident);
    RunKeepsInv(ident, Start, events);
    var s := Run(ident, Start, events);
    assert EffectInv(s, CreateAttempted) && EffectInv(s, InputRequestAttempted) && EffectInv(s, ResumeStarted);
  }

  /** The durable versions form one chain: the i-th has phase i, and what one says the later ones
      repeat. The last of them is what the disk holds. */
  lemma DurablePhasesAreWriteOnce(ident: Identity, events: seq<Event>, i: nat, j: nat)
    requires i <= j < |Run(ident, Start, events).history|
    ensures var s := Run(ident, Start, events);
            && s.disk.durable == Some(Last(s.history))
            && Index(s.history[j].phase) == j && ValidRecord(s.history[j]) && s.history[j].id == ident
            && Extends(s.history[i], s.history[j])
  {
    StartIsGood(ident);
    RunKeepsInv(ident, Start, events);
    var s := Run(ident, Start, events);
    var all := s.history + s.disk.pending;
    assert all[i] == s.history[i] && all[j] == s.history[j];
    ChainIsWriteOnce(all, i, j);
    RecordInHistory(ident, s, s.history[j]);
  }

  /** A later run never loses a durable version. */
  lemma {:induction false} DurableIsForever(ident: Identity, s: System, events: seq<Event>)
    ensures s.history <= Run(ident, s, events).history
    decreases |events|
  {
    if events != [] {
      assert s.history <= Step(ident, s, events[0]).history by {
        if IsBegin(events[0]) || events[0].Continue? {}
      }
      DurableIsForever(ident, Step(ident, s, events[0]), events[1..]);
    }
  }

  /** Whatever task a durable record has adopted is the one task the one create call made, and the one that was
      asked for, between the right participants and for the right request; input was
      requested for that task only, and the resume evidence was returned by the one commit. */
  lemma AdoptedTaskIsTheCreatedOne(ident: Identity, events: seq<Event>, i: nat)
    requires i < |Run(ident, Start, events).history|
    ensures var s := Run(ident, Start, events); var r := s.history[i];
            && (r.taskId.Some? ==>
                  && |s.svc.created| == 1 && var t := s.svc.created[0];
                  && t.id == r.taskId.value && t.from == ident.requester && t.to == ident.responder && t.wellFormed
                  && Marker(ident.correlationId, ident.requestFingerprint) in t.markers && t.fingerprint == ident.requestFingerprint)
            && (s.svc.inputCalls != [] ==> s.svc.created != [] && s.svc.inputCalls == [s.svc.created[0].id])
            && (r.resumeEvidence.Some? ==> s.svc.evidence == {r.resumeEvidence.value})
  {
    StartIsGood(ident);
    RunKeepsInv(ident, Start, events);
    var s := Run(ident, Start, events);
    var r := s.history[i];
    RecordInHistory(ident, s, r);
    assert EffectInv(s, ResumeStarted);
    if r.resumeEvidence.Some? {
      SingletonOf(s.svc.evidence, r.resumeEvidence.value);
    }
  }

  lemma SingletonOf<T>(a: set<T>, x: T)
    requires |a| <= 1 && x in a
    ensures a == {x}
  {
    assert |a - {x}| == |a| - 1;
  }

  /** From a durable attempt on, no later run calls that effect again when it has been called. */
  lemma NoSecondEffect(ident: Identity, before: seq<Event>, after: seq<Event>)
    ensures var s, t := Run(ident, Start, before), Run(ident, Run(ident, Start, before), after);
            && (s.svc.createCalls == 1 ==> t.svc.createCalls == 1)
            && (s.svc.inputCalls != [] ==> t.svc.inputCalls == s.svc.inputCalls)
            && (s.svc.commitCalls == 1 ==> t.svc.commitCalls == 1)
  {
    StartIsGood(ident);
    RunKeepsInv(ident, Start, before);
    var s := Run(ident, Start, before);
    RunKeepsInv(ident, s, after);
    CallsOnlyGrow(ident, s, after);
    var t := Run(ident, s, after);
    assert EffectInv(t, CreateAttempted) && EffectInv(t, InputRequestAttempted) && EffectInv(t, ResumeStarted);
  }

  lemma {:induction false} CallsOnlyGrow(ident: Identity, s: System, events: seq<Event>)
    ensures var t := Run(ident, s, events);
            s.svc.createCalls <= t.svc.createCalls && s.svc.inputCalls <= t.svc.inputCalls && s.svc.commitCalls <= t.svc.commitCalls
    decreases |events|
  {
    if events != [] {
      StepCallsGrow(ident, s, events[0]);
      CallsOnlyGrow(ident, Step(ident, s, events[0]), events[1..]);
    }
  }

  lemma StepCallsGrow(ident: Identity, s: System, e: Event)
    ensures var t := Step(ident, s, e);
            s.svc.createCalls <= t.svc.createCalls && s.svc.inputCalls <= t.svc.inputCalls && s.svc.commitCalls <= t.svc.commitCalls
  {
    if IsBegin(e) || e.Continue? {}
  }

  // ------------------------------------------------------------------ what the records say of the operations

  predicate SameDecision(a: DecisionEvidence, b: DecisionEvidence) {
    a.approved == b.approved && a.messageId == b.messageId && a.fingerprint == b.fingerprint
  }

  predicate IsOnRecord(r: Record, d: DecisionEvidence) {
    r.decisionEvidence.Some? && SameDecision(r.decisionEvidence.value, d)
  }

  /** Some operation of the run was given this decision, this input and this stamp, and the resume was started on
      a delivery of the very decision. */
  ghost predicate Backed(r: Record, seen: seq<Event>) {
    && (r.decisionEvidence.Some? ==> exists e :: e in seen && e.BeginReceive? && SameDecision(r.decisionEvidence.value, e.decision))
    && (r.inputEvidence.Some? ==> exists e :: e in seen && e.BeginAskInput? && r.inputEvidence == Some(e.input))
    && (r.createAttemptedAt.Some? ==> exists e :: e in seen && e.BeginCreate? && r.createAttemptedAt == Some(e.stamp))
    && (Index(r.phase) >= Index(ResumeStarted) ==> exists e :: e in seen && e.BeginResume? && IsOnRecord(r, e.decision))
  }

  ghost predicate AllBacked(s: System, seen: seq<Event>) {
    && (forall i :: 0 <= i < |s.history| ==> Backed(s.history[i], seen))
    && (forall i :: 0 <= i < |s.disk.pending| ==> Backed(s.disk.pending[i], seen))
    && (forall w :: LocalOf(s, w).Saving? ==> Backed(LocalOf(s, w).next, seen))
  }

  lemma BackedGrows(r: Record, seen: seq<Event>, e: Event)
    requires Backed(r, seen)
    ensures Backed(r, seen + [e])
  {
  }

  lemma AllBackedGrows(s: System, seen: seq<Event>, e: Event)
    requires AllBacked(s, seen)
    ensures AllBacked(s, seen + [e])
  {
    forall r | Backed(r, seen)
      ensures Backed(r, seen + [e])
    {
      BackedGrows(r, seen, e);
    }
  }

  /** Evidence is new only in its own phase. */
  lemma OldEvidence(prior: Option<Record>, next: Record)
    requires MayFollow(prior, next) && (prior.Some? ==> ValidRecord(prior.value))
    ensures next.decisionEvidence.Some? && next.phase != DecisionReceived ==>
              prior.Some? && prior.value.decisionEvidence.Some? && SameDecision(next.decisionEvidence.value, prior.value.decisionEvidence.value)
    ensures next.inputEvidence.Some? ==> next.phase == InputRequestAttempted || (prior.Some? && prior.value.inputEvidence == next.inputEvidence)
    ensures next.createAttemptedAt.Some? ==> next.phase == CreateAttempted || (prior.Some? && prior.value.createAttemptedAt == next.createAttemptedAt)
    ensures Index(next.phase) > Index(ResumeStarted) ==> prior.Some? && Index(prior.value.phase) >= Index(ResumeStarted) && next.decisionEvidence.Some?
  {
  }

  /** The operation of that phase was given it. */
  lemma NewEvidence(ident: Identity, s: System, e: Event, next: Record)
    requires if e.Continue? then LocalOf(s, e.w).Answered? && AfterAnswer(LocalOf(s, e.w).rec, LocalOf(s, e.w).reply, e.clock) == Some(next)
             else IsBegin(e) && NextRecord(ident, s, e) == Some(next)
    ensures next.phase == DecisionReceived ==> e.BeginReceive? && next.decisionEvidence.Some? && SameDecision(next.decisionEvidence.value, e.decision)
    ensures next.phase == InputRequestAttempted ==> e.BeginAskInput? && next.inputEvidence == Some(e.input)
    ensures next.phase == CreateAttempted ==> e.BeginCreate? && next.createAttemptedAt == Some(e.stamp)
    ensures next.phase == ResumeStarted ==> e.BeginResume? && IsOnRecord(next, e.decision)
  {
  }

  lemma VisibleIsBacked(ident: Identity, s: System, seen: seq<Event>)
    requires Inv(ident, s) && AllBacked(s, seen)
    ensures Visible(s.disk).Some? ==> Backed(Visible(s.disk).value, seen) && ValidRecord(Visible(s.disk).value)
  {
    var all := s.history + s.disk.pending;
    if s.disk.pending != [] {
      assert all[|all| - 1] == Last(s.disk.pending);
    } else if s.history != [] {
      assert all[|all| - 1] == Last(s.history);
    }
  }

  lemma SaveIsBacked(ident: Identity, s: System, seen: seq<Event>, e: Event, next: Record)
    requires Inv(ident, s) && AllBacked(s, seen) && MayFollow(Visible(s.disk), next)
    requires if e.Continue? then LocalOf(s, e.w).Answered? && AfterAnswer(LocalOf(s, e.w).rec, LocalOf(s, e.w).reply, e.clock) == Some(next)
             else IsBegin(e) && NextRecord(ident, s, e) == Some(next)
    ensures Backed(next, seen + [e])
  {
    hide Inv, AllBacked, MayFollow, NextRecord, AfterAnswer, Visible, LocalOf, ValidRecord;
    VisibleIsBacked(ident, s, seen);
    OldEvidence(Visible(s.disk), next);
    NewEvidence(ident, s, e, next);
    if Visible(s.disk).Some? { BackedGrows(Visible(s.disk).value, seen, e); }
    assert e in seen + [e];
  }

  lemma BeginIsBacked(s: System, w: nat, next: Option<Record>, seen: seq<Event>)
    requires AllBacked(s, seen) && (next.Some? && MayFollow(Visible(s.disk), next.value) ==> Backed(next.value, seen))
    ensures AllBacked(Begin(s, w, next), seen)
  {
    var t := Begin(s, w, next);
    assert forall v :: v != w ==> LocalOf(t, v) == LocalOf(s, v);
  }

  lemma StepIsBacked(ident: Identity, s: System, seen: seq<Event>, e: Event)
    requires Inv(ident, s) && AllBacked(s, seen)
    ensures AllBacked(Step(ident, s, e), seen + [e])
  {
    AllBackedGrows(s, seen, e);
    if IsBegin(e) || e.Continue? {
      var next := if e.Continue? then (if LocalOf(s, e.w).Answered? then AfterAnswer(LocalOf(s, e.w).rec, LocalOf(s, e.w).reply, e.clock) else None)
                  else NextRecord(ident, s, e);
      if next.Some? && MayFollow(Visible(s.disk), next.value) { SaveIsBacked(ident, s, seen, e, next.value); }
      BeginIsBacked(s, e.w, next, seen + [e]);
      assert Step(ident, s, e) == s || Step(ident, s, e) == Begin(s, e.w, next);
    } else {
      MoveIsBacked(ident, s, seen + [e], e);
    }
  }

  /** The other steps only move records about. */
  lemma MoveIsBacked(ident: Identity, s: System, seen: seq<Event>, e: Event)
    requires Inv(ident, s) && AllBacked(s, seen) && !IsBegin(e) && !e.Continue?
    ensures AllBacked(Step(ident, s, e), seen)
  {
    hide Backed, NextRecord, Begin, DiskInv, WorldInv, EffectInv;
    var t := Step(ident, s, e);
    if e.RenameStep? || e.SyncStep? || e.ReturnFromSave? || e.ThrowInSave? || e.Call? || e.Kill? {
      assert forall v :: v != e.w ==> LocalOf(t, v) == LocalOf(s, v);
      assert LocalInv(ident, s, e.w);
    } else if e.ForeignTask? {
      assert forall v :: LocalOf(t, v) == LocalOf(s, v);
    } else {
      assert t == s || forall v :: LocalOf(t, v) == Idle;
    }
  }

  lemma {:induction false} RunIsBacked(ident: Identity, s: System, seen: seq<Event>, events: seq<Event>)
    requires Inv(ident, s) && AllBacked(s, seen)
    ensures AllBacked(Run(ident, s, events), seen + events)
    decreases |events|
  {
    hide Inv, AllBacked, Step;
    if events == [] {
      assert seen + [] == seen;
    } else {
      StepIsBacked(ident, s, seen, events[0]);
      StepKeepsInv(ident, s, events[0]);
      RunIsBacked(ident, Step(ident, s, events[0]), seen + [events[0]], events[1..]);
      assert seen + [events[0]] + events[1..] == seen + events;
    }
  }

  /** Whatever a durable record says of the decision, of the input it asked for and of the creation attempt, some
      operation of the run was given: the decision received, in all that counts, the input asked with and the
      stamp. And no resume starts but on a delivery of the decision on record. */
  lemma RecordsSayWhatWasGiven(ident: Identity, events: seq<Event>, i: nat)
    requires i < |Run(ident, Start, events).history|
    ensures var r := Run(ident, Start, events).history[i];
            && (r.decisionEvidence.Some? ==>
                  exists e :: e in events && e.BeginReceive? && SameDecision(r.decisionEvidence.value, e.decision))
            && (r.inputEvidence.Some? ==> exists e :: e in events && e.BeginAskInput? && r.inputEvidence == Some(e.input))
            && (r.createAttemptedAt.Some? ==> exists e :: e in events && e.BeginCreate? && r.createAttemptedAt == Some(e.stamp))
            && (r.phase in {ResumeStarted, Resumed} ==> exists e :: e in events && e.BeginResume? && IsOnRecord(r, e.decision))
  {
    StartIsGood(ident);
    assert forall v :: LocalOf(Start, v) == Idle;
    RunIsBacked(ident, Start, [], events);
    assert [] + events == events;
    assert Backed(Run(ident, Start, events).history[i], events);
  }

  // ------------------------------------------------------------------ when nothing fails

  /** An operation whose save is not disturbed. */
  function Saved(e: Event, w: nat): seq<Event> { [e, RenameStep(w), SyncStep(w), ReturnFromSave(w)] }

  /** Nobody holds the lock and nothing is unsynced. */
  predicate AtRest(s: System, w: nat, durable: Option<Record>) {
    s.disk == Disk(durable, [], None) && (durable.Some? ==> ValidRecord(durable.value)) && LocalOf(s, w) == Idle
  }

  /** The record before, and what each operation makes of it. */
  ghost predicate Advances(svc: Service, e: Event, prior: Option<Record>, next: Record) {
    match e
    case BeginFirst(_, first) => next == first
    case BeginCreate(_, _, stamp) => prior.Some? && IsNext(prior.value, next, IntentCreated) && next.createAttemptedAt == Some(stamp)
    case BeginAdopt(_, _, _, id, _) => prior.Some? && IsNext(prior.value, next, CreateAttempted) && next.taskId == Some(id)
    case BeginAskInput(_, _, input, _) => prior.Some? && IsNext(prior.value, next, TaskAdopted) && next.inputEvidence == Some(input)
    case BeginAwait(_, _, _) => prior.Some? && IsNext(prior.value, next, InputRequestAttempted)
    case BeginReceive(_, _, d, _) =>
      && prior.Some? && IsNext(prior.value, next, AwaitingInput)
      && next.decisionEvidence == Some(DecisionEvidence(d.approved, d.messageId, d.fingerprint, []))
    case BeginResume(_, _, _, _) => prior.Some? && IsNext(prior.value, next, DecisionReceived)
    case BeginFinish(_, _, _, proof, _) => prior.Some? && IsNext(prior.value, next, ResumeStarted) && next.resumeEvidence == Some(proof)
    case _ => false
  }

  ghost predicate IsNext(prior: Record, next: Record, phase: Phase) {
    prior.phase == phase && Index(next.phase) == Index(phase) + 1 && ValidRecord(next) && Extends(prior, next)
  }

  /** The operation is the one for the durable record, and may go ahead. */
  ghost predicate Applies(ident: Identity, svc: Service, e: Event, prior: Option<Record>) {
    match e
    case BeginFirst(_, first) => prior.None? && first.id == ident && first.phase == IntentCreated && ValidRecord(first)
    case BeginCreate(_, from, stamp) => prior == Some(from) && from.phase == IntentCreated && stamp > from.updatedAt
    case BeginAdopt(_, from, listings, id, _) =>
      prior == Some(from) && from.phase == CreateAttempted && Listable(svc, listings) && Agrees(listings, from, id)
    case BeginAskInput(_, from, _, _) => prior == Some(from) && from.phase == TaskAdopted
    case BeginAwait(_, from, _) => prior == Some(from) && from.phase == InputRequestAttempted
    case BeginReceive(_, from, _, _) => prior == Some(from) && from.phase == AwaitingInput
    case BeginResume(_, from, d, _) => prior == Some(from) && from.phase == DecisionReceived && IsOnRecord(from, d)
    case BeginFinish(_, from, d, proof, _) => prior == Some(from) && from.phase == ResumeStarted && IsOnRecord(from, d) && proof in svc.evidence
    case _ => false
  }

  lemma ApplyingGoesAhead(ident: Identity, s: System, e: Event, prior: Option<Record>)
    requires Applies(ident, s.svc, e, prior) && (prior.Some? ==> ValidRecord(prior.value))
    ensures var next := NextRecord(ident, s, e);
            next.Some? && MayFollow(prior, next.value) && Advances(s.svc, e, prior, next.value)
  {
  }

  lemma RunOfFour(ident: Identity, s: System, e: seq<Event>)
    requires |e| == 4
    ensures Run(ident, s, e) == Step(ident, Step(ident, Step(ident, Step(ident, s, e[0]), e[1]), e[2]), e[3])
  {
    hide Step;
    var a := Step(ident, s, e[0]);
    var b := Step(ident, a, e[1]);
    var c := Step(ident, b, e[2]);
    assert Run(ident, s, e) == Run(ident, a, e[1..]);
    assert Run(ident, a, e[1..]) == Run(ident, b, e[2..]) by { assert e[1..][1..] == e[2..]; }
    assert Run(ident, b, e[2..]) == Run(ident, c, e[3..]) by { assert e[2..][1..] == e[3..]; }
    assert e[3..][1..] == [];
    assert Run(ident, c, e[3..]) == Run(ident, Step(ident, c, e[3]), []);
  }

  /** What an undisturbed save leaves: the record is durable, and the worker holds it. */
  predicate Holds(s: System, t: System, w: nat, next: Record) {
    t.disk == Disk(Some(next), [], None) && LocalOf(t, w) == Returned(next) && t.svc == s.svc && t.history == s.history + [next]
  }

  lemma SaveGoesThrough(ident: Identity, s: System, e: Event, w: nat, next: Record)
    requires s.disk.pending == [] && s.disk.lock.None? && MayFollow(s.disk.durable, next)
    requires Step(ident, s, e) == Begin(s, w, Some(next))
    ensures Holds(s, Run(ident, s, Saved(e, w)), w, next)
  {
    RunOfFour(ident, s, Saved(e, w));
    var a := Begin(s, w, Some(next));
    assert LocalOf(a, w) == Saving(next, Locked) && a.disk.pending == [] && a.svc == s.svc && a.history == s.history;
    hide Step, Begin, MayFollow;
    SaveSteps(ident, a, w, next);
  }

  lemma SaveSteps(ident: Identity, a: System, w: nat, next: Record)
    requires LocalOf(a, w) == Saving(next, Locked) && a.disk.pending == []
    ensures Holds(a, Step(ident, Step(ident, Step(ident, a, RenameStep(w)), SyncStep(w)), ReturnFromSave(w)), w, next)
  {
    hide NextRecord, Begin, Effect;
    var b := Step(ident, a, RenameStep(w));
    assert b == a.(disk := b.disk, locals := b.locals) && LocalOf(b, w) == Saving(next, Renamed) && b.disk.pending == [next];
    var c := Step(ident, b, SyncStep(w));
    assert c == b.(disk := c.disk, locals := c.locals, history := b.history + [next]) && LocalOf(c, w) == Saving(next, Synced);
    assert c.disk.durable == Some(next) && c.disk.pending == [];
  }

  /** Any operation that is the one for the durable record, when nothing disturbs it, makes durable what it was
      called for: the next phase, with its own evidence, and all that the record said before. */
  lemma UndisturbedOperationAdvances(ident: Identity, s: System, e: Event, prior: Option<Record>)
    requires IsBegin(e) && AtRest(s, e.w, prior) && Applies(ident, s.svc, e, prior)
    ensures var t := Run(ident, s, Saved(e, e.w));
            && t.disk.durable.Some? && Advances(s.svc, e, prior, t.disk.durable.value)
            && Holds(s, t, e.w, t.disk.durable.value)
  {
    ApplyingGoesAhead(ident, s, e, prior);
    SaveGoesThrough(ident, s, e, e.w, NextRecord(ident, s, e).value);
  }

  /** After its attempt is durable a worker makes the one call of that phase, with the reply for the save that
      follows; every other phase makes none. */
  lemma CallIsMade(ident: Identity, s: System, w: nat, o: Outcome, clock: int)
    requires s.disk.pending == [] && s.disk.lock.None? && LocalOf(s, w).Returned? && s.disk.durable == Some(LocalOf(s, w).rec)
    requires ValidRecord(LocalOf(s, w).rec) && o.answered
    ensures var rec := LocalOf(s, w).rec;
            var t := Step(ident, s, Call(w, o));
            var u := Run(ident, t, Saved(Continue(w, clock), w));
            && (rec.phase == CreateAttempted && o.task.Some? && IsRequested(o.task.value, rec.id) ==>
                  && t.svc == s.svc.(createCalls := s.svc.createCalls + 1, created := s.svc.created + [o.task.value])
                  && u.disk.durable.Some? && IsNext(rec, u.disk.durable.value, CreateAttempted) && u.disk.durable.value.taskId == Some(o.task.value.id))
            && (rec.phase == InputRequestAttempted ==>
                  && t.svc == s.svc.(inputCalls := s.svc.inputCalls + [rec.taskId.value])
                  && u.disk.durable.Some? && IsNext(rec, u.disk.durable.value, InputRequestAttempted))
            && (rec.phase == ResumeStarted && o.evidence.Some? ==>
                  && t.svc == s.svc.(commitCalls := s.svc.commitCalls + 1, evidence := s.svc.evidence + {o.evidence.value})
                  && u.disk.durable.Some? && IsNext(rec, u.disk.durable.value, ResumeStarted) && u.disk.durable.value.resumeEvidence == o.evidence)
            && (rec.phase !in {CreateAttempted, InputRequestAttempted, ResumeStarted} ==> t.svc == s.svc && LocalOf(t, w) == Idle)
  {
    var rec := LocalOf(s, w).rec;
    var t := Step(ident, s, Call(w, o));
    assert t.disk == s.disk;
    if LocalOf(t, w).Answered? {
      AnswerGoesAhead(rec, LocalOf(t, w).reply, clock);
      SaveGoesThrough(ident, t, Continue(w, clock), w, AfterAnswer(rec, LocalOf(t, w).reply, clock).value);
    }
  }

  /** When an answer is lost, or the answer is not the task that was asked for, the worker stops there: what it did
      is done, and nothing is saved. */
  lemma LostAnswerSavesNothing(ident: Identity, s: System, w: nat, o: Outcome)
    requires LocalOf(s, w).Returned? && ValidRecord(LocalOf(s, w).rec)
    ensures var rec := LocalOf(s, w).rec;
            var t := Step(ident, s, Call(w, o));
            && t.disk == s.disk && t.history == s.history
            && (!o.answered ==> LocalOf(t, w) == Idle)
            && (rec.phase == CreateAttempted && (o.task.None? || !IsRequested(o.task.value, rec.id)) ==> LocalOf(t, w) == Idle)
            && (rec.phase == ResumeStarted && o.evidence.None? ==> LocalOf(t, w) == Idle)
  {
  }

  /** An operation that the durable record does not allow, or that meets the lock, throws without a trace. */
  lemma RefusedOperationChangesNothing(ident: Identity, s: System, e: Event)
    requires IsBegin(e) && LocalOf(s, e.w).Idle?
    requires s.disk.lock.Some? || NextRecord(ident, s, e).None? || !MayFollow(Visible(s.disk), NextRecord(ident, s, e).value)
    ensures var t := Step(ident, s, e);
            t.disk == s.disk && t.svc == s.svc && t.history == s.history && LocalOf(t, e.w) == Idle
  {
  }

  /** A save that throws gives the lock back; one whose process dies does not. */
  lemma StoppedSaves(ident: Identity, s: System, w: nat)
    requires LocalOf(s, w).Saving?
    ensures var t := Step(ident, s, ThrowInSave(w)); t.disk == s.disk.(lock := None) && LocalOf(t, w) == Idle && t.history == s.history
    ensures var t := Step(ident, s, Kill(w)); t.disk == s.disk && LocalOf(t, w) == Idle && t.history == s.history
  {
  }

  /** A decision delivered again that contradicts the one on record resumes nothing. */
  lemma ContradictionResumesNothing(ident: Identity, s: System, e: Event)
    requires (e.BeginResume? || e.BeginFinish?) && LocalOf(s, e.w).Idle? && !IsOnRecord(e.from, e.decision)
    ensures var t := Step(ident, s, e); t.disk == s.disk && t.svc == s.svc && t.history == s.history && LocalOf(t, e.w) == Idle
  {
    RefusedOperationChangesNothing(ident, s, e);
  }

  /** A worker whose answer may not be saved any more stops, too. */
  lemma RefusedAnswerChangesNothing(ident: Identity, s: System, w: nat, clock: int)
    requires LocalOf(s, w).Answered?
    requires var next := AfterAnswer(LocalOf(s, w).rec, LocalOf(s, w).reply, clock);
             s.disk.lock.Some? || next.None? || !MayFollow(Visible(s.disk), next.value)
    ensures var t := Step(ident, s, Continue(w, clock)); t.disk == s.disk && t.svc == s.svc && LocalOf(t, w) == Idle
  {
  }

  lemma AnswerGoesAhead(rec: Record, reply: string, clock: int)
    requires ValidRecord(rec) && rec.phase in {CreateAttempted, InputRequestAttempted, ResumeStarted}
    ensures var next := AfterAnswer(rec, reply, clock);
            && next.Some? && MayFollow(Some(rec), next.value) && IsNext(rec, next.value, rec.phase)
            && (rec.phase == CreateAttempted ==> next.value.taskId == Some(reply))
            && (rec.phase == ResumeStarted ==> next.value.resumeEvidence == Some(reply))
  {
  }
}
