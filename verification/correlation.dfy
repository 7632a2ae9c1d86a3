/** The durable record of one adapter correlation: the phases it moves through, what a legal
    change is, and the store that replaces it on disk (correlation-store.ts). */
module Correlation {
  import opened Common

  datatype Phase =
    | IntentCreated
    | CreateAttempted
    | TaskAdopted
    | InputRequestAttempted
    | AwaitingInput
    | DecisionReceived
    | ResumeStarted
    | Resumed

  function Index(p: Phase): nat {
    match p
    case IntentCreated => 0
    case CreateAttempted => 1
    case TaskAdopted => 2
    case InputRequestAttempted => 3
    case AwaitingInput => 4
    case DecisionReceived => 5
    case ResumeStarted => 6
    case Resumed => 7
  }

  /** The fields that no later write may change. */
  datatype Identity = Identity(
    framework: string,
    correlationId: string,
    operationKey: string,
    requestFingerprint: string,
    requester: string,
    responder: string,
    frameworkStateRef: string,
    approvalItemKey: Option<string>)

  datatype DecisionEvidence = DecisionEvidence(
    approved: bool,
    messageId: string,
    fingerprint: string,
    overlayIds: seq<string>)

  datatype Record = Record(
    id: Identity,
    phase: Phase,
    taskId: Option<string>,
    createAttemptedAt: Option<int>,
    inputEvidence: Option<string>,
    decisionEvidence: Option<DecisionEvidence>,
    resumeEvidence: Option<string>,
    updatedAt: int)

  /** Only the durable terminal fields take part in comparisons. */
  function Canonical(e: Option<DecisionEvidence>): Option<DecisionEvidence> {
    match e
    case None => None
    case Some(ev) => Some(ev.(overlayIds := []))
  }

  /** Each piece of evidence is present exactly from its own phase on. */
  predicate ValidRecord(r: Record) {
    && (Index(r.phase) >= Index(CreateAttempted) <==> r.createAttemptedAt.Some?)
    && (Index(r.phase) >= Index(TaskAdopted) <==> r.taskId.Some?)
    && (Index(r.phase) >= Index(InputRequestAttempted) <==> r.inputEvidence.Some?)
    && (Index(r.phase) >= Index(DecisionReceived) <==> r.decisionEvidence.Some?)
    && (r.phase == Resumed <==> r.resumeEvidence.Some?)
    && (r.createAttemptedAt.Some? ==> r.createAttemptedAt.value <= r.updatedAt)
  }

  /** validateAdjacentChange accepts `next` on top of `prior`. */
  predicate Adjacent(prior: Record, next: Record) {
    && next.id == prior.id
    && Index(next.phase) == Index(prior.phase) + 1
    && prior.updatedAt < next.updatedAt
    && (prior.createAttemptedAt.Some? ==> next.createAttemptedAt == prior.createAttemptedAt)
    && (prior.taskId.Some? ==> next.taskId == prior.taskId)
    && (prior.inputEvidence.Some? ==> next.inputEvidence == prior.inputEvidence)
    && (prior.decisionEvidence.Some? ==> Canonical(next.decisionEvidence) == Canonical(prior.decisionEvidence))
    && (prior.resumeEvidence.Some? ==> next.resumeEvidence == prior.resumeEvidence)
  }

  /** The fields a transition may set; None leaves the field as it was. */
  datatype Changes = Changes(
    taskId: Option<string>,
    createAttemptedAt: Option<int>,
    inputEvidence: Option<string>,
    decisionEvidence: Option<DecisionEvidence>,
    resumeEvidence: Option<string>)

  const NoChanges := Changes(None, None, None, None, None)

  function Override<T>(before: Option<T>, change: Option<T>): Option<T> {
    if change.Some? then change else before
  }

  /** `transition`: None where the source throws. `stamp` is the explicit `now`, `clock` the wall clock. */
  function Transition(r: Record, phase: Phase, c: Changes, stamp: Option<int>, clock: int): (next: Option<Record>)
    ensures next.Some? ==> ValidRecord(next.value) && Adjacent(r, next.value)
  {
    if Index(phase) != Index(r.phase) + 1 then None else
    var updatedAt := if stamp.Some? then stamp.value else Max(clock, r.updatedAt + 1);
    var next := Record(r.id, phase, Override(r.taskId, c.taskId),
                       Override(r.createAttemptedAt, c.createAttemptedAt),
                       Override(r.inputEvidence, c.inputEvidence),
                       Override(r.decisionEvidence, c.decisionEvidence),
                       Override(r.resumeEvidence, c.resumeEvidence), updatedAt);
    if phase == CreateAttempted && next.createAttemptedAt != Some(updatedAt) then None
    else if !ValidRecord(next) || !Adjacent(r, next) then None
    else Some(next)
  }

  /** What a transition to `phase` may say of a field that belongs to the phase `own`: later fields not yet,
      its own for the first time, earlier ones nothing new. */
  predicate FieldFits<T(==)>(before: Option<T>, change: Option<T>, own: Phase, phase: Phase) {
    if Index(own) > Index(phase) then change.None?
    else if own == phase then change.Some?
    else change.None? || change == before
  }

  /** What counts of a decision: the verdict, the message and the fingerprint. */
  function Verdict(e: Option<DecisionEvidence>): Option<(bool, string, string)> {
    if e.None? then None else Some((e.value.approved, e.value.messageId, e.value.fingerprint))
  }

  /** The field afterwards: set by the transition to its own phase, and as before by every other. */
  predicate FieldAfter<T(==)>(before: Option<T>, change: Option<T>, after: Option<T>, own: Phase, phase: Phase) {
    after == if own == phase then change else before
  }

  /** From a valid record a transition succeeds exactly when it goes one phase on, forward in time, with the
      evidence of the new phase, stamped itself if that is the creation attempt, and with nothing that
      contradicts or anticipates other evidence. Then it sets the phase, the time and that evidence alone. */
  lemma TransitionSucceedsExactly(r: Record, phase: Phase, c: Changes, stamp: Option<int>, clock: int)
    requires ValidRecord(r)
    ensures var next := Transition(r, phase, c, stamp, clock);
            var at := if stamp.Some? then stamp.value else Max(clock, r.updatedAt + 1);
            && (next.Some? <==>
                  && Index(phase) == Index(r.phase) + 1 && (stamp.Some? ==> stamp.value > r.updatedAt)
                  && FieldFits(r.createAttemptedAt, c.createAttemptedAt, CreateAttempted, phase)
                  && (phase == CreateAttempted ==> c.createAttemptedAt == Some(at))
                  && FieldFits(r.taskId, c.taskId, TaskAdopted, phase)
                  && FieldFits(r.inputEvidence, c.inputEvidence, InputRequestAttempted, phase)
                  && (c.decisionEvidence.None? || FieldFits(Verdict(r.decisionEvidence), Verdict(c.decisionEvidence), DecisionReceived, phase))
                  && (phase == DecisionReceived ==> c.decisionEvidence.Some?)
                  && FieldFits(r.resumeEvidence, c.resumeEvidence, Resumed, phase))
            && (next.Some? ==>
                  var n := next.value;
                  && n.id == r.id && n.phase == phase && n.updatedAt == at > r.updatedAt
                  && FieldAfter(r.createAttemptedAt, c.createAttemptedAt, n.createAttemptedAt, CreateAttempted, phase)
                  && FieldAfter(r.taskId, c.taskId, n.taskId, TaskAdopted, phase)
                  && FieldAfter(r.inputEvidence, c.inputEvidence, n.inputEvidence, InputRequestAttempted, phase)
                  && FieldAfter(Verdict(r.decisionEvidence), Verdict(c.decisionEvidence), Verdict(n.decisionEvidence), DecisionReceived, phase)
                  && FieldAfter(r.resumeEvidence, c.resumeEvidence, n.resumeEvidence, Resumed, phase))
  {
    if Index(phase) == Index(r.phase) + 1 {
      match phase
      case CreateAttempted => {}
      case TaskAdopted => {}
      case InputRequestAttempted => {}
      case AwaitingInput => {}
      case DecisionReceived => {}
      case ResumeStarted => {}
      case Resumed => {}
    }
  }

  // ------------------------------------------------------------------ histories

  /** Consecutive durable versions of one record, oldest first. */
  ghost predicate Chain(h: seq<Record>) {
    && (forall i :: 0 <= i < |h| ==> ValidRecord(h[i]))
    && (forall i :: 0 < i < |h| ==> Adjacent(h[i - 1], h[i]))
    && (h != [] ==> h[0].phase == IntentCreated)
  }

  /** What a later version still says about an earlier one. */
  ghost predicate Extends(early: Record, late: Record) {
    && late.id == early.id
    && (early.createAttemptedAt.Some? ==> late.createAttemptedAt == early.createAttemptedAt)
    && (early.taskId.Some? ==> late.taskId == early.taskId)
    && (early.inputEvidence.Some? ==> late.inputEvidence == early.inputEvidence)
    && (early.decisionEvidence.Some? ==> Verdict(late.decisionEvidence) == Verdict(early.decisionEvidence))
    && (early.resumeEvidence.Some? ==> late.resumeEvidence == early.resumeEvidence)
  }

  /** In a chain the phase is the position, evidence is write-once, and time moves forward. */
  lemma {:induction false} ChainIsWriteOnce(h: seq<Record>, i: nat, j: nat)
    requires Chain(h) && i <= j < |h|
    ensures Index(h[j].phase) == j
    ensures Extends(h[i], h[j])
    ensures i < j ==> h[i].updatedAt < h[j].updatedAt
    decreases i + j
  {
    if i < j {
      ChainIsWriteOnce(h, i, j - 1);
      assert Adjacent(h[j - 1], h[j]);
    } else if j > 0 {
      ChainIsWriteOnce(h, j - 1, j - 1);
      assert Adjacent(h[j - 1], h[j]);
    }
  }

  // ------------------------------------------------------------------ the file on disk

  /** `durable` is what a power loss keeps; `pending` the versions renamed into place since the last
      directory sync, oldest first; `lock` the worker whose lock directory exists. */
  datatype Disk = Disk(durable: Option<Record>, pending: seq<Record>, lock: Option<nat>)

  function Visible(d: Disk): Option<Record> {
    if d.pending == [] then d.durable else Some(Last(d.pending))
  }

  /** The check saveLocked makes before it writes anything. */
  predicate MayFollow(prior: Option<Record>, next: Record) {
    && ValidRecord(next)
    && match prior
       case None => next.phase == IntentCreated
       case Some(p) => Adjacent(p, next)
  }

  function Acquire(d: Disk, worker: nat): Disk { d.(lock := Some(worker)) }

  function Rename(d: Disk, next: Record): Disk { d.(pending := d.pending + [next]) }

  function SyncDirectory(d: Disk): Disk { d.(durable := Visible(d), pending := []) }

  function Release(d: Disk): Disk { d.(lock := None) }

  /** Power loss: the first `keep` unsynced renames reached the disk; the lock directory may not have. */
  function PowerLoss(d: Disk, keep: nat, keepLock: bool): Disk
    requires keep <= |d.pending|
  {
    Disk(if keep == 0 then d.durable else Some(d.pending[keep - 1]), [], if keepLock then d.lock else None)
  }

  /** Where a save stops early: it throws before or after the rename, or the process dies there. */
  datatype SaveFault = NoFault | ThrowBeforeRename | ThrowAfterRename | DieBeforeRename | DieAfterRename

  datatype SaveOutcome = Saved | Refused | Failed | Crashed

  /** The store of one correlation file; `save` replaces it under the lock directory. */
  class CorrelationStore {
    var disk: Disk

    constructor ()
      ensures disk == Disk(None, [], None)
    {
      disk := Disk(None, [], None);
    }

    /** A save that returns normally has made `next`, and nothing else, the durable record. A refused
        one changed nothing; one that failed or died left the prior version or `next` visible and kept
        whatever was durable. */
    method Save(next: Record, worker: nat, fault: SaveFault) returns (r: SaveOutcome)
      modifies this
      ensures r == Refused <==> old(disk).lock.Some? || !MayFollow(Visible(old(disk)), next)
      ensures r == Refused ==> disk == old(disk)
      ensures r == Saved <==> r != Refused && fault == NoFault
      ensures r == Saved ==> disk == Disk(Some(next), [], None)
      ensures r == Crashed <==> r != Refused && (fault == DieBeforeRename || fault == DieAfterRename)
      ensures r == Crashed ==> disk.lock == Some(worker)
      ensures r == Failed ==> disk.lock == None
      ensures r == Crashed || r == Failed ==>
                && disk.durable == old(disk).durable
                && disk.pending == if fault == ThrowAfterRename || fault == DieAfterRename
                                   then old(disk).pending + [next] else old(disk).pending
    {
      if disk.lock.Some? { return Refused; }
      disk := Acquire(disk, worker);
      if !MayFollow(Visible(disk), next) {
        disk := Release(disk);
        return Refused;
      }
      if fault == DieBeforeRename { return Crashed; }
      if fault == ThrowBeforeRename {
        disk := Release(disk);
        return Failed;
      }
      disk := Rename(disk, next);
      if fault == DieAfterRename { return Crashed; }
      if fault == ThrowAfterRename {
        disk := Release(disk);
        return Failed;
      }
      disk := SyncDirectory(disk);
      disk := Release(disk);
      return Saved;
    }
  }
}
