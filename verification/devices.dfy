/** Revoking paired devices (notification-devices.ts): mark the row pending, delete the remote user, then
    mark it revoked, with a reconcile pass over the rows left pending. */
module Devices {
  import opened Common
  import opened Registry

  /** The reply of the remote delete; Raised is any other exception. */
  datatype Reply = Deleted | NotFound | Transient | Raised

  /** One remote delete, the clock, and the faults of the write that follows. */
  datatype Answer = Answer(reply: Reply, now: int, w: WritePlan)

  /** What happened, oldest first: a stored registry showed the device pending, or the remote delete of
      its user returned deleted or not_found. */
  datatype Note = SawPending(device: string) | Gone(user: string)

  /** The remote user was confirmed gone after the device had been seen pending. */
  predicate Confirmed(log: seq<Note>, device: string, user: string) {
    exists i, j {:trigger log[i], log[j]} :: 0 <= i < j < |log| && log[i] == SawPending(device) && log[j] == Gone(user)
  }

  predicate Saw(log: seq<Note>, device: string) { SawPending(device) in log }

  predicate RowIsProper(d: Device, log: seq<Note>) {
    d.status == Revoked ==> Confirmed(log, d.id, d.user)
  }

  predicate TableIsProper(t: Table, log: seq<Note>) {
    forall i :: 0 <= i < |t| ==> RowIsProper(t[i], log)
  }

  predicate FileIsProper(c: Option<Content>, log: seq<Note>) {
    c.Some? && c.value.Whole? ==> TableIsProper(c.value.table, log)
  }

  predicate AllProper(m: Images, log: seq<Note>) {
    forall i :: 0 <= i < |m| ==> FileIsProper(m[i].dest, log) && FileIsProper(m[i].bak, log)
  }

  // ------------------------------------------------------------------ the operations

  /** How an operation ended: Stopped is the death of the process, Thrown(e) the error of the source. */
  datatype Failure = NoSuchDevice | RemoteTransient | RemoteRaised | PersistFailed | RegistryCorrupt

  datatype Ending = RevokedNow | AlreadyRevoked | Finished | Thrown(e: Failure) | Stopped

  /** `table` is the in-memory file of the running operation. */
  datatype Work = Work(images: Images, latched: bool, log: seq<Note>, table: Table, end: Ending)

  /** The pending rows of a stored registry, as notes. */
  function PendingNotes(t: Table): (r: seq<Note>)
  {
    if t == [] then []
    else (if t[0].status == PendingRevoke then [SawPending(t[0].id)] else []) + PendingNotes(t[1..])
  }

  /** persist: any error but corruption becomes the persist error. A reported write was stored. */
  function Persist(k: Work, w: WritePlan): (r: Work)
    ensures r.table == k.table
  {
    var s := WriteStep(k.images, k.latched, k.table, w);
    match s.out
    case Written => k.(images := s.images, latched := s.latched, log := k.log + PendingNotes(k.table), end := Finished)
    case Refused => k.(images := s.images, latched := s.latched, end := Thrown(RegistryCorrupt))
    case Failed => k.(images := s.images, latched := s.latched, end := Thrown(PersistFailed))
    case WriteDied => k.(images := s.images, latched := false, end := Stopped)
  }

  /** finishRevoke. The row is changed in memory before it is stored. */
  function FinishRevoke(k: Work, i: nat, a: Answer): (r: Work)
    requires i < |k.table|
    ensures |r.table| == |k.table|
  {
    match a.reply
    case Transient => k.(end := Thrown(RemoteTransient))
    case Raised => k.(end := Thrown(RemoteRaised))
    case _ =>
      var row := k.table[i].(status := Revoked, revokedAt := Some(a.now));
      var r := Persist(k.(table := k.table[i := row], log := k.log + [Gone(k.table[i].user)]), a.w);
      if r.end == Finished then r.(end := RevokedNow) else r
  }

  /** The first row with this id. */
  function FindRow(t: Table, id: string): (i: nat)
    ensures i <= |t| && (i < |t| ==> t[i].id == id)
    ensures forall j :: 0 <= j < i ==> t[j].id != id
  {
    if t == [] || t[0].id == id then 0 else FindRow(t[1..], id) + 1
  }

  /** readRegistrySync at the start of an operation. */
  function Open(images: Images, latched: bool, log: seq<Note>, p: ReadPlan): (r: Work)
  {
    var s := ReadStep(images, latched, p);
    match s.out
    case Loaded(t) => Work(s.images, s.latched, log + PendingNotes(t), t, Finished)
    case Corrupt => Work(s.images, s.latched, log, [], Thrown(RegistryCorrupt))
    case ReadDied => Work(s.images, false, log, [], Stopped)
  }

  /** registerPairedDevice: ids are fresh. */
  function Register(images: Images, latched: bool, log: seq<Note>, id: string, user: string, p: ReadPlan, w: WritePlan): (r: Work)
  {
    var k := Open(images, latched, log, p);
    if k.end != Finished then k else Persist(k.(table := k.table + [Device(id, user, Active, None)]), w)
  }

  /** revokePairedDevice. */
  function Revoke(images: Images, latched: bool, log: seq<Note>, id: string, p: ReadPlan, w: WritePlan, a: Answer): (r: Work)
  {
    var k := Open(images, latched, log, p);
    if k.end != Finished then k else
    var i := FindRow(k.table, id);
    if i == |k.table| then k.(end := Thrown(NoSuchDevice)) else
    match k.table[i].status
    case Revoked => k.(end := AlreadyRevoked)
    case PendingRevoke => FinishRevoke(k, i, a)
    case Active =>
      var marked := Persist(k.(table := k.table[i := k.table[i].(status := PendingRevoke, revokedAt := None)]), w);
      if marked.end != Finished then marked else FinishRevoke(marked, i, a)
  }

  /** The loop of reconcilePendingRevokes from row `i`: a transient reply or a failed write goes on to the
      next row with the rows as changed in memory. A row without an answer counts as transient. */
  function ReconcileFrom(k: Work, i: nat, skip: string, answers: seq<Answer>): (r: Work)
    requires i <= |k.table| && k.end == Finished
    decreases |k.table| - i
  {
    if i == |k.table| then k
    else if k.table[i].status != PendingRevoke || k.table[i].id == skip || i >= |answers| then ReconcileFrom(k, i + 1, skip, answers)
    else
      var r := FinishRevoke(k, i, answers[i]);
      if r.end == Stopped || r.end == Thrown(RegistryCorrupt) || r.end == Thrown(RemoteRaised) then r
      else ReconcileFrom(r.(end := Finished), i + 1, skip, answers)
  }

  function Reconcile(images: Images, latched: bool, log: seq<Note>, skip: string, p: ReadPlan, answers: seq<Answer>): (r: Work)
  {
    var k := Open(images, latched, log, p);
    if k.end != Finished then k else ReconcileFrom(k, 0, skip, answers)
  }

  // ------------------------------------------------------------------ what every step keeps

  lemma ConfirmedGrows(log: seq<Note>, more: seq<Note>, device: string, user: string)
    requires Confirmed(log, device, user)
    ensures Confirmed(log + more, device, user)
  {
    var i, j :| 0 <= i < j < |log| && log[i] == SawPending(device) && log[j] == Gone(user);
    assert (log + more)[i] == log[i] && (log + more)[j] == log[j];
  }

  lemma TableGrows(t: Table, log: seq<Note>, more: seq<Note>)
    requires TableIsProper(t, log)
    ensures TableIsProper(t, log + more)
  {
    forall i: nat | i < |t|
      ensures RowIsProper(t[i], log + more)
    {
      assert RowIsProper(t[i], log);
      if t[i].status == Revoked { ConfirmedGrows(log, more, t[i].id, t[i].user); }
    }
  }

  lemma AllGrows(m: Images, log: seq<Note>, more: seq<Note>)
    requires AllProper(m, log)
    ensures AllProper(m, log + more)
  {
    forall i: nat | i < |m|
      ensures FileIsProper(m[i].dest, log + more) && FileIsProper(m[i].bak, log + more)
    {
      FileGrows(m[i].dest, log, more);
      FileGrows(m[i].bak, log, more);
    }
  }

  lemma FileGrows(c: Option<Content>, log: seq<Note>, more: seq<Note>)
    requires FileIsProper(c, log)
    ensures FileIsProper(c, log + more)
  {
    if c.Some? && c.value.Whole? { TableGrows(c.value.table, log, more); }
  }

  lemma {:induction false} PendingIsNoted(t: Table, i: nat)
    requires i < |t| && t[i].status == PendingRevoke
    ensures SawPending(t[i].id) in PendingNotes(t)
  {
    if i > 0 { PendingIsNoted(t[1..], i - 1); }
  }

  /** Reading moves files about but makes no new content. */
  lemma ReadKeepsProper(m: Images, latched: bool, p: ReadPlan, log: seq<Note>)
    requires AllProper(m, log)
    ensures var r := ReadStep(m, latched, p); AllProper(r.images, log) && (r.out.Loaded? ==> TableIsProper(r.out.table, log))
  {
    var t := RecoverTmp(m, p.dropTmp);
    assert AllProper(t.images, log);
    var b := RecoverBackup(t.images, p);
    assert AllProper(b.images, log);
  }

  lemma RewriteKeepsProper(m: Images, c: Content, p: WritePlan, log: seq<Note>)
    requires AllProper(m, log) && FileIsProper(Some(c), log)
    ensures AllProper(Rewrite(m, c, p).images, log)
  {
    var t := Update(m, NewDest(Visible(m), Torn), p.rewrite);
    assert AllProper(t.images, log);
  }

  lemma SetAsideKeepsProper(m: Images, p: WritePlan, log: seq<Note>)
    requires AllProper(m, log)
    ensures AllProper(SetAside(m, p).images, log)
  {
    var q := Update(m, Quarantined(Visible(m)), p.quarantine);
    assert AllProper(q.images, log);
  }

  lemma RestoreKeepsProper(m: Images, previous: Content, p: WritePlan, log: seq<Note>)
    requires AllProper(m, log) && FileIsProper(Some(previous), log)
    ensures AllProper(Restore(m, previous, p).images, log)
  {
    var v := Visible(m);
    var b := if v.bak.Some? then Update(m, RestoredBak(v), p.restore) else Done(m, Threw);
    assert AllProper(b.images, log);
    RewriteKeepsProper(b.images, previous, p, log);
    SetAsideKeepsProper(Rewrite(b.images, previous, p).images, p, log);
  }

  lemma RollBackKeepsProper(m: Images, previous: Option<Content>, p: WritePlan, log: seq<Note>)
    requires AllProper(m, log) && FileIsProper(previous, log)
    ensures AllProper(RollBack(m, previous, p).images, log)
  {
    if previous.Some? { RestoreKeepsProper(m, previous.value, p, log); }
    var u := Undo(m, previous, p);
    assert AllProper(u.images, log);
    assert AllProper(SyncDir(u.images, p.syncAgain).images, log);
  }

  lemma ReplaceKeepsProper(m: Images, table: Table, p: WritePlan, log: seq<Note>)
    requires AllProper(m, log) && TableIsProper(table, log)
    ensures AllProper(Replace(m, table, p).images, log)
  {
    var previous := Visible(m).dest;
    var b := if previous.Some? then Update(m, BackedUp(Visible(m)), p.backUp) else Done(m, Ran);
    assert AllProper(b.images, log);
    var i := Update(b.images, InstalledNew(Visible(b.images), table), p.install);
    assert AllProper(i.images, log);
    var s := SyncDir(i.images, p.sync);
    assert AllProper(s.images, log);
    RollBackKeepsProper(s.images, previous, p, log);
  }

  lemma WriteKeepsProper(m: Images, latched: bool, table: Table, p: WritePlan, log: seq<Note>)
    requires AllProper(m, log) && TableIsProper(table, log)
    ensures AllProper(WriteStep(m, latched, table, p).images, log)
  {
    var t := Update(m, NewTmp(Visible(m), Torn), p.fill);
    var w := Update(t.images, NewTmp(Visible(t.images), Whole(table)), p.finish);
    assert AllProper(w.images, log);
    ReplaceKeepsProper(w.images, table, p, log);
  }

  /** What holds between two calls of an operation that has read the registry. Every row pending in
      memory has been seen pending in storage. */
  predicate Proper(k: Work) {
    AllProper(k.images, k.log) && TableIsProper(k.table, k.log)
  }

  predicate PendingSeen(k: Work) {
    forall i :: 0 <= i < |k.table| && k.table[i].status == PendingRevoke ==> Saw(k.log, k.table[i].id)
  }

  lemma OpenIsProper(images: Images, latched: bool, log: seq<Note>, p: ReadPlan)
    requires AllProper(images, log)
    ensures var r := Open(images, latched, log, p); Proper(r) && PendingSeen(r)
  {
    ReadKeepsProper(images, latched, p, log);
    var s := ReadStep(images, latched, p);
    if s.out.Loaded? {
      AllGrows(s.images, log, PendingNotes(s.out.table));
      TableGrows(s.out.table, log, PendingNotes(s.out.table));
      forall i: nat | i < |s.out.table| && s.out.table[i].status == PendingRevoke
        ensures Saw(log + PendingNotes(s.out.table), s.out.table[i].id)
      {
        PendingIsNoted(s.out.table, i);
      }
    }
  }

  lemma PersistIsProper(k: Work, w: WritePlan)
    requires Proper(k)
    ensures Proper(Persist(k, w)) && (PendingSeen(k) || Persist(k, w).end == Finished ==> PendingSeen(Persist(k, w)))
  {
    WriteKeepsProper(k.images, k.latched, k.table, w, k.log);
    var s := WriteStep(k.images, k.latched, k.table, w);
    AllGrows(s.images, k.log, PendingNotes(k.table));
    TableGrows(k.table, k.log, PendingNotes(k.table));
    if s.out == Written {
      forall i: nat | i < |k.table| && k.table[i].status == PendingRevoke
        ensures Saw(k.log + PendingNotes(k.table), k.table[i].id)
      {
        PendingIsNoted(k.table, i);
      }
    }
  }

  lemma FinishIsProper(k: Work, i: nat, a: Answer)
    requires Proper(k) && PendingSeen(k) && i < |k.table| && k.table[i].status == PendingRevoke
    ensures Proper(FinishRevoke(k, i, a)) && PendingSeen(FinishRevoke(k, i, a))
  {
    if a.reply == Deleted || a.reply == NotFound {
      var row := k.table[i].(status := Revoked, revokedAt := Some(a.now));
      var log := k.log + [Gone(row.user)];
      AllGrows(k.images, k.log, [Gone(row.user)]);
      TableGrows(k.table, k.log, [Gone(row.user)]);
      SeenThenGone(k.log, row.id, row.user);
      var next := k.(table := k.table[i := row], log := log);
      assert TableIsProper(next.table, log) by {
        forall j: nat | j < |next.table|
          ensures RowIsProper(next.table[j], log)
        {
          assert j != i ==> next.table[j] == k.table[j] && RowIsProper(k.table[j], log);
        }
      }
      assert PendingSeen(next) by {
        forall j: nat | j < |next.table| && next.table[j].status == PendingRevoke
          ensures Saw(log, next.table[j].id)
        {
          assert next.table[j] == k.table[j] && Saw(k.log, k.table[j].id);
        }
      }
      PersistIsProper(next, a.w);
    }
  }

  lemma SeenThenGone(log: seq<Note>, device: string, user: string)
    requires Saw(log, device)
    ensures Confirmed(log + [Gone(user)], device, user)
  {
    var i :| 0 <= i < |log| && log[i] == SawPending(device);
    var all := log + [Gone(user)];
    assert all[i] == SawPending(device) && all[|log|] == Gone(user);
  }

  lemma RegisterIsProper(images: Images, latched: bool, log: seq<Note>, id: string, user: string, p: ReadPlan, w: WritePlan)
    requires AllProper(images, log)
    ensures Proper(Register(images, latched, log, id, user, p, w))
  {
    OpenIsProper(images, latched, log, p);
    var k := Open(images, latched, log, p);
    var next := k.(table := k.table + [Device(id, user, Active, None)]);
    assert Proper(next);
    PersistIsProper(next, w);
  }

  lemma RevokeIsProper(images: Images, latched: bool, log: seq<Note>, id: string, p: ReadPlan, w: WritePlan, a: Answer)
    requires AllProper(images, log)
    ensures Proper(Revoke(images, latched, log, id, p, w, a))
  {
    OpenIsProper(images, latched, log, p);
    var k := Open(images, latched, log, p);
    var i := FindRow(k.table, id);
    if k.end == Finished && i < |k.table| {
      if k.table[i].status == PendingRevoke {
        FinishIsProper(k, i, a);
      } else if k.table[i].status == Active {
        var next := k.(table := k.table[i := k.table[i].(status := PendingRevoke, revokedAt := None)]);
        assert Proper(next);
        PersistIsProper(next, w);
        var marked := Persist(next, w);
        if marked.end == Finished { FinishIsProper(marked, i, a); }
      }
    }
  }

  lemma {:induction false} ReconcileIsProper(k: Work, i: nat, skip: string, answers: seq<Answer>)
    requires Proper(k) && PendingSeen(k) && i <= |k.table| && k.end == Finished
    ensures Proper(ReconcileFrom(k, i, skip, answers))
    decreases |k.table| - i
  {
    if i < |k.table| {
      if k.table[i].status != PendingRevoke || k.table[i].id == skip || i >= |answers| {
        ReconcileIsProper(k, i + 1, skip, answers);
      } else {
        FinishIsProper(k, i, answers[i]);
        var r := FinishRevoke(k, i, answers[i]);
        var next := r.(end := Finished);
        assert Proper(next) && PendingSeen(next);
        ReconcileIsProper(next, i + 1, skip, answers);
      }
    }
  }

  // ------------------------------------------------------------------ what an answer means, whatever fails

  /** Every state that a power loss may leave holds this table. */
  predicate IsStored(m: Images, t: Table) { forall i :: 0 <= i < |m| ==> m[i].dest == Some(Whole(t)) }

  lemma PersistTells(k: Work, w: WritePlan)
    ensures var r := Persist(k, w);
            && r.end in {Finished, Thrown(RegistryCorrupt), Thrown(PersistFailed), Stopped}
            && (r.end == Finished ==> IsStored(r.images, k.table))
            && (r.end == Stopped ==> !r.latched)
            && r.log == if r.end == Finished then k.log + PendingNotes(k.table) else k.log
  {
    hide WriteStep, PendingNotes;
    if WriteStep(k.images, k.latched, k.table, w).out == Written { WrittenIsStored(k.images, k.latched, k.table, w); }
  }

  lemma FinishTells(k: Work, i: nat, a: Answer)
    requires i < |k.table| && k.end == Finished
    ensures var r := FinishRevoke(k, i, a);
            && r.end != Finished && (r.end == Stopped ==> !r.latched)
            && (r.end == RevokedNow ==>
                  r.table == k.table[i := k.table[i].(status := Revoked, revokedAt := Some(a.now))] && IsStored(r.images, r.table))
  {
    hide Persist, IsStored;
    var row := k.table[i].(status := Revoked, revokedAt := Some(a.now));
    PersistTells(k.(table := k.table[i := row], log := k.log + [Gone(k.table[i].user)]), a.w);
  }

  function RevokedAt(t: Table, i: nat, now: int): Table
    requires i < |t|
  {
    t[i := t[i].(status := Revoked, revokedAt := Some(now))]
  }

  /** Whatever fails: a device is registered, or revoked, only when every state that a power loss may leave says
      so, and nothing else has changed in the table that was read. If the table could not be read nothing is
      written and nobody is deleted. A process that died has no latch. */
  lemma AnswersAreStored(m: Images, latched: bool, log: seq<Note>, id: string, user: string, p: ReadPlan, w: WritePlan, a: Answer)
    ensures var read := ReadStep(m, latched, p);
            var g := Register(m, latched, log, id, user, p, w);
            var r := Revoke(m, latched, log, id, p, w, a);
            && (g.end == Finished ==> read.out.Loaded? && IsStored(g.images, read.out.table + [Device(id, user, Active, None)]))
            && (r.end == RevokedNow ==>
                  && read.out.Loaded?
                  && exists i :: IsFirst(read.out.table, id, i) && IsStored(r.images, RevokedAt(read.out.table, i, a.now)))
            && (!read.out.Loaded? ==>
                  g.images == r.images == read.images && g.log == r.log == log && g.end == r.end && r.end in {Thrown(RegistryCorrupt), Stopped})
            && (g.end == Stopped ==> !g.latched) && (r.end == Stopped ==> !r.latched)
  {
    hide ReadStep, Persist, FinishRevoke, IsStored, FindRow, PendingNotes;
    var out := ReadStep(m, latched, p).out;
    if out.Loaded? {
      var k := Open(m, latched, log, p);
      PersistTells(k.(table := k.table + [Device(id, user, Active, None)]), w);
      FoundIsFirst(out.table, id);
      var i := FindRow(out.table, id);
      if i < |out.table| {
        var pending := out.table[i].(status := PendingRevoke, revokedAt := None);
        var marked := k.(table := out.table[i := pending]);
        PersistTells(marked, w);
        FinishTells(k, i, a);
        if Persist(marked, w).end == Finished { FinishTells(Persist(marked, w), i, a); }
        TwoUpdates(out.table, i, pending, pending.(status := Revoked, revokedAt := Some(a.now)));
        var r := Revoke(m, latched, log, id, p, w, a);
        assert IsFirst(out.table, id, i) && (r.end == RevokedNow ==> r.table == RevokedAt(out.table, i, a.now));
      }
    }
  }

  lemma TwoUpdates(t: Table, i: nat, a: Device, b: Device)
    requires i < |t|
    ensures t[i := a][i := b] == t[i := b]
  {
  }

  /** The pending rows are noted, and nothing else. */
  lemma {:induction false} PendingNotesAre(t: Table, n: Note)
    ensures n in PendingNotes(t) <==> n.SawPending? && exists i :: 0 <= i < |t| && t[i].status == PendingRevoke && n == SawPending(t[i].id)
  {
    if t != [] {
      PendingNotesAre(t[1..], n);
      assert forall i :: 0 <= i < |t| - 1 ==> t[1..][i] == t[i + 1];
      if i :| 0 <= i < |t| && t[i].status == PendingRevoke && n == SawPending(t[i].id) {
        if i > 0 { assert t[1..][i - 1] == t[i]; }
      }
    }
  }

  /** Each user deleted since `before` is one of these, and was deleted after its device had been seen pending. */
  predicate DeletesAfter(before: seq<Note>, after: seq<Note>, device: string, user: string) {
    && before <= after
    && forall p :: |before| <= p < |after| && after[p].Gone? ==>
         after[p] == Gone(user) && exists q :: |before| <= q < p && after[q] == SawPending(device)
  }

  lemma NotesDeleteNobody(log: seq<Note>, t: Table, device: string, user: string)
    ensures DeletesAfter(log, log + PendingNotes(t), device, user)
  {
    TailDeletesNobody(log, t);
  }

  lemma TailDeletesNobody(log: seq<Note>, t: Table)
    ensures forall p :: |log| <= p < |log + PendingNotes(t)| ==> !(log + PendingNotes(t))[p].Gone?
  {
    var all := log + PendingNotes(t);
    forall p | |log| <= p < |all|
      ensures !all[p].Gone?
    {
      PendingNotesAre(t, all[p]);
      assert all[p] == PendingNotes(t)[p - |log|];
    }
  }

  lemma DeletesGoOn(before: seq<Note>, after: seq<Note>, t: Table, device: string, user: string)
    requires DeletesAfter(before, after, device, user)
    ensures DeletesAfter(before, after + PendingNotes(t), device, user)
  {
    var all := after + PendingNotes(t);
    TailDeletesNobody(after, t);
    forall p | |before| <= p < |all| && all[p].Gone?
      ensures all[p] == Gone(user) && exists q :: |before| <= q < p && all[q] == SawPending(device)
    {
      assert p < |after| && after[p].Gone?;
      var q :| |before| <= q < p && after[q] == SawPending(device);
      assert all[q] == SawPending(device);
    }
  }

  lemma FinishDeletes(before: seq<Note>, k: Work, i: nat, a: Answer, device: string)
    requires i < |k.table| && DeletesAfter(before, k.log, device, k.table[i].user)
    requires exists q :: |before| <= q < |k.log| && k.log[q] == SawPending(device)
    ensures DeletesAfter(before, FinishRevoke(k, i, a).log, device, k.table[i].user)
  {
    var user := k.table[i].user;
    var row := k.table[i].(status := Revoked, revokedAt := Some(a.now));
    var g := k.(table := k.table[i := row], log := k.log + [Gone(user)]);
    var q :| |before| <= q < |k.log| && k.log[q] == SawPending(device);
    assert DeletesAfter(before, g.log, device, user) by {
      forall p | |before| <= p < |g.log| && g.log[p].Gone?
        ensures g.log[p] == Gone(user) && exists q :: |before| <= q < p && g.log[q] == SawPending(device)
      {
        if p < |k.log| {
          var o :| |before| <= o < p && k.log[o] == SawPending(device);
          assert g.log[o] == SawPending(device);
        } else {
          assert g.log[q] == SawPending(device);
        }
      }
    }
    hide Persist, DeletesAfter, PendingNotes;
    PersistTells(g, a.w);
    DeletesGoOn(before, g.log, g.table, device, user);
  }

  lemma SeenInNotes(log: seq<Note>, t: Table, i: nat)
    requires i < |t| && t[i].status == PendingRevoke
    ensures exists q :: |log| <= q < |log + PendingNotes(t)| && (log + PendingNotes(t))[q] == SawPending(t[i].id)
  {
    PendingNotesAre(t, SawPending(t[i].id));
    var q :| 0 <= q < |PendingNotes(t)| && PendingNotes(t)[q] == SawPending(t[i].id);
    assert (log + PendingNotes(t))[|log| + q] == SawPending(t[i].id);
  }

  /** Whatever fails, a revocation deletes the user of its own device only, and only after the device was read or
      stored as pending. */
  lemma RevokeDeletesOnlyPending(m: Images, latched: bool, log: seq<Note>, id: string, p: ReadPlan, w: WritePlan, a: Answer, i: nat)
    requires var out := ReadStep(m, latched, p).out; out.Loaded? && IsFirst(out.table, id, i)
    ensures DeletesAfter(log, Revoke(m, latched, log, id, p, w, a).log, id, ReadStep(m, latched, p).out.table[i].user)
  {
    hide ReadStep, Persist, FinishRevoke, FindRow, PendingNotes, DeletesAfter;
    var t := ReadStep(m, latched, p).out.table;
    var k := Open(m, latched, log, p);
    FoundIsFirst(t, id);
    NotesDeleteNobody(log, t, id, t[i].user);
    if t[i].status == PendingRevoke {
      SeenInNotes(log, t, i);
      FinishDeletes(log, k, i, a, id);
    } else if t[i].status == Active {
      var marked := k.(table := t[i := t[i].(status := PendingRevoke, revokedAt := None)]);
      PersistTells(marked, w);
      var q := Persist(marked, w);
      DeletesGoOn(log, k.log, marked.table, id, t[i].user);
      if q.end == Finished {
        SeenLater(log, k.log, marked.table, i);
        FinishDeletes(log, q, i, a, id);
      }
    }
  }

  lemma SeenLater(before: seq<Note>, log: seq<Note>, t: Table, i: nat)
    requires |before| <= |log| && i < |t| && t[i].status == PendingRevoke
    ensures exists q :: |before| <= q < |log + PendingNotes(t)| && (log + PendingNotes(t))[q] == SawPending(t[i].id)
  {
    SeenInNotes(log, t, i);
  }

  // ------------------------------------------------------------------ when nothing fails

  /** A registry that says this, to a process that has not closed it. */
  predicate Says(k: Work, table: Table) {
    IsWritable(k.images, k.latched) && Reads(Visible(k.images)) == Some(table)
  }

  lemma OpenWorks(m: Images, log: seq<Note>, table: Table)
    requires Reads(Visible(m)) == Some(table)
    ensures var k := Open(m, false, log, ReadWorks);
            k.end == Finished && k.table == table && Says(k, table) && k.log == log + PendingNotes(table)
  {
    hide ReadStep;
    UndisturbedReadLoads(m);
  }

  lemma PersistWorks(k: Work)
    requires IsWritable(k.images, k.latched)
    ensures var r := Persist(k, AllWorks);
            r.end == Finished && Says(r, k.table) && r.log == k.log + PendingNotes(k.table)
  {
    hide WriteStep;
    UndisturbedWriteStores(k.images, k.table);
  }

  lemma FinishWorks(k: Work, i: nat, a: Answer)
    requires i < |k.table| && IsWritable(k.images, k.latched) && (a.reply == Deleted || a.reply == NotFound) && a.w == AllWorks
    ensures var r := FinishRevoke(k, i, a);
            var f := r.(end := Finished);
            && r.end == RevokedNow && r.table == k.table[i := k.table[i].(status := Revoked, revokedAt := Some(a.now))]
            && IsWritable(f.images, f.latched) && Visible(f.images).dest == Some(Whole(f.table)) && Says(f, f.table)
  {
    hide WriteStep, PendingNotes;
    UndisturbedWriteStores(k.images, FinishRevoke(k, i, a).table);
    LastInside(FinishRevoke(k, i, a).images);
  }

  lemma LastInside(m: Images)
    ensures Visible(m) == m[|m| - 1]
  {
  }

  /** Registering, when nothing fails, adds one active device to the stored table. */
  lemma RegisterAdds(m: Images, log: seq<Note>, table: Table, id: string, user: string)
    requires Reads(Visible(m)) == Some(table)
    ensures var r := Register(m, false, log, id, user, ReadWorks, AllWorks);
            r.end == Finished && Says(r, table + [Device(id, user, Active, None)])
  {
    hide Open, Persist, Reads;
    OpenWorks(m, log, table);
    var k := Open(m, false, log, ReadWorks);
    PersistWorks(k.(table := k.table + [Device(id, user, Active, None)]));
  }

  /** Whatever fails: a device is unknown exactly when no row of the table that was read has its id, and revoked
      already exactly when the first that has it is. */
  lemma RevokeAnswers(m: Images, latched: bool, log: seq<Note>, id: string, p: ReadPlan, w: WritePlan, a: Answer)
    ensures var out := ReadStep(m, latched, p).out;
            var r := Revoke(m, latched, log, id, p, w, a);
            && (r.end == Thrown(NoSuchDevice) <==> out.Loaded? && forall d :: d in out.table ==> d.id != id)
            && (r.end == AlreadyRevoked <==>
                  out.Loaded? && exists i :: 0 <= i < |out.table| && IsFirst(out.table, id, i) && out.table[i].status == Revoked)
  {
    hide ReadStep, Persist, FinishRevoke, Open, FindRow;
    var out := ReadStep(m, latched, p).out;
    OpenEnds(m, latched, log, p);
    var k := Open(m, latched, log, p);
    if out.Loaded? {
      FoundIsFirst(out.table, id);
      var i := FindRow(out.table, id);
      if i < |out.table| {
        var marked := k.(table := k.table[i := k.table[i].(status := PendingRevoke, revokedAt := None)]);
        LaterEnds(k, i, w, a);
        LaterEnds(marked, i, w, a);
        LaterEnds(Persist(marked, w), i, w, a);
      }
    }
  }

  lemma OpenEnds(m: Images, latched: bool, log: seq<Note>, p: ReadPlan)
    ensures var k, out := Open(m, latched, log, p), ReadStep(m, latched, p).out;
            if out.Loaded? then k.end == Finished && k.table == out.table else k.end in {Thrown(RegistryCorrupt), Stopped}
  {
  }

  lemma LaterEnds(k: Work, i: nat, w: WritePlan, a: Answer)
    requires i < |k.table|
    ensures Persist(k, w).end !in {Thrown(NoSuchDevice), AlreadyRevoked} && FinishRevoke(k, i, a).end !in {Thrown(NoSuchDevice), AlreadyRevoked}
  {
    hide WriteStep, PendingNotes;
  }

  lemma FoundIsFirst(t: Table, id: string)
    ensures var i := FindRow(t, id);
            && (i == |t| <==> forall d :: d in t ==> d.id != id)
            && forall j :: IsFirst(t, id, j) <==> j == i < |t|
  {
    var i := FindRow(t, id);
    assert i < |t| ==> t[i] in t;
  }

  predicate IsNew(before: seq<Note>, after: seq<Note>, n: Note) { |before| <= |after| && n in after[|before|..] }

  predicate IsFirst(t: Table, id: string, i: int) {
    0 <= i < |t| && t[i].id == id && forall j :: 0 <= j < i ==> t[j].id != id
  }

  /** A revocation takes place: when the disk works and the server answers, the device is revoked in the stored
      table, and only it, after its user was deleted or reported missing; when the server does not answer, the
      device is stored as pending. */
  lemma RevokeRevokes(m: Images, log: seq<Note>, table: Table, id: string, i: nat, a: Answer)
    requires Reads(Visible(m)) == Some(table) && IsFirst(table, id, i) && table[i].status != Revoked && a.w == AllWorks
    ensures var r := Revoke(m, false, log, id, ReadWorks, AllWorks, a);
            && (a.reply == Deleted || a.reply == NotFound ==>
                  && r.end == RevokedNow && IsNew(log, r.log, Gone(table[i].user))
                  && Says(r, table[i := table[i].(status := Revoked, revokedAt := Some(a.now))]))
            && (a.reply == Transient || a.reply == Raised ==>
                  && r.end == Thrown(if a.reply == Transient then RemoteTransient else RemoteRaised)
                  && Says(r, table[i := table[i].(status := PendingRevoke, revokedAt := if table[i].status == Active then None else table[i].revokedAt)]))
  {
    hide ReadStep, WriteStep, Reads;
    OpenWorks(m, log, table);
    var k := Open(m, false, log, ReadWorks);
    assert FindRow(table, id) == i;
    var marked := k.(table := table[i := table[i].(status := PendingRevoke, revokedAt := None)]);
    PersistWorks(marked);
    var q := if table[i].status == Active then Persist(marked, AllWorks) else k;
    var row := q.table[i].(status := Revoked, revokedAt := Some(a.now));
    var g := q.(table := q.table[i := row], log := q.log + [Gone(q.table[i].user)]);
    PersistWorks(g);
    if table[i].status == PendingRevoke { assert table[i := table[i].(status := PendingRevoke)] == table; }
    assert q.table[i := row] == table[i := table[i].(status := Revoked, revokedAt := Some(a.now))];
    LogKeeps(log, PendingNotes(table), if table[i].status == Active then PendingNotes(marked.table) else [], Gone(table[i].user), PendingNotes(g.table));
  }

  lemma LogKeeps(log: seq<Note>, a: seq<Note>, b: seq<Note>, n: Note, d: seq<Note>)
    ensures n in (log + a + b + [n] + d)[|log|..] && n in (log + a + [n] + d)[|log|..]
  {
    assert (log + a + b + [n] + d)[|log| + |a| + |b|] == n && (log + a + [n] + d)[|log| + |a|] == n;
    assert (log + a + b + [n] + d)[|log|..][|a| + |b|] == n && (log + a + [n] + d)[|log|..][|a|] == n;
  }

  /** Revoking a device that is revoked already, or unknown, changes nothing and deletes nobody. */
  lemma RevokedIsLeftAlone(m: Images, log: seq<Note>, table: Table, id: string, w: WritePlan, a: Answer)
    requires Reads(Visible(m)) == Some(table) && forall i :: IsFirst(table, id, i) ==> table[i].status == Revoked
    ensures var r := Revoke(m, false, log, id, ReadWorks, w, a);
            r.end in {AlreadyRevoked, Thrown(NoSuchDevice)} && Says(r, table) && r.log == log + PendingNotes(table)
  {
    hide ReadStep, WriteStep, Reads;
    OpenWorks(m, log, table);
    FoundIsFirst(table, id);
  }

  /** The whole reconcile, from the registry on disk. */
  lemma ReconcileRevokesOnDisk(m: Images, log: seq<Note>, table: Table, skip: string, answers: seq<Answer>)
    requires Reads(Visible(m)) == Some(table) && |table| <= |answers|
    requires forall j :: 0 <= j < |answers| ==> (answers[j].reply == Deleted || answers[j].reply == NotFound) && answers[j].w == AllWorks
    ensures var r := Reconcile(m, false, log, skip, ReadWorks, answers);
            && r.end == Finished && Says(r, r.table) && |r.table| == |table|
            && (forall j :: 0 <= j < |table| ==>
                  if table[j].status == PendingRevoke && table[j].id != skip
                  then r.table[j] == table[j].(status := Revoked, revokedAt := Some(answers[j].now)) else r.table[j] == table[j])
  {
    hide ReadStep, WriteStep, ReconcileFrom;
    OpenWorks(m, log, table);
    var k := Open(m, false, log, ReadWorks);
    ReconcileRevokesAllPending(k, 0, skip, answers);
  }

  /** With a reachable server and a working disk a reconcile leaves no device pending but the one to skip,
      revokes exactly those that were, and the registry on disk says so. */
  lemma {:induction false} ReconcileRevokesAllPending(k: Work, i: nat, skip: string, answers: seq<Answer>)
    requires i <= |k.table| <= |answers| && k.end == Finished && IsWritable(k.images, k.latched)
    requires forall j :: 0 <= j < |answers| ==> (answers[j].reply == Deleted || answers[j].reply == NotFound) && answers[j].w == AllWorks
    ensures var r := ReconcileFrom(k, i, skip, answers);
            && r.end == Finished && |r.table| == |k.table|
            && (forall j :: 0 <= j < i ==> r.table[j] == k.table[j])
            && (forall j :: i <= j < |k.table| ==>
                  if k.table[j].status == PendingRevoke && k.table[j].id != skip
                  then r.table[j] == k.table[j].(status := Revoked, revokedAt := Some(answers[j].now)) else r.table[j] == k.table[j])
            && ((r.table == k.table && r.images == k.images) || Visible(r.images).dest == Some(Whole(r.table)))
            && (Says(k, k.table) ==> Says(r, r.table))
    decreases |k.table| - i
  {
    hide FinishRevoke, Says, IsWritable;
    if i < |k.table| {
      if k.table[i].status != PendingRevoke || k.table[i].id == skip {
        ReconcileRevokesAllPending(k, i + 1, skip, answers);
      } else {
        FinishWorks(k, i, answers[i]);
        ReconcileRevokesAllPending(FinishRevoke(k, i, answers[i]).(end := Finished), i + 1, skip, answers);
      }
    }
  }

  // ------------------------------------------------------------------ the operations as the source runs them

  /** The registry module's operations on its files. The in-memory file is changed row by row before it
      is stored. */
  class PairedDevices {
    const registry: DeviceRegistry
    ghost var log: seq<Note>

    constructor ()
      ensures fresh(registry) && registry.images == [EmptyDir] && !registry.latched && log == []
    {
      registry := new DeviceRegistry();
      log := [];
    }

    ghost predicate Is(k: Work)
      reads this, registry
    {
      registry.images == k.images && log == k.log && (k.end != Stopped ==> registry.latched == k.latched)
    }

    method PersistFile(table: Table, w: WritePlan, ghost k: Work) returns (end: Ending)
      requires Is(k) && k.end == Finished && k.table == table
      modifies this, registry
      ensures Is(Persist(k, w)) && end == Persist(k, w).end
    {
      var out := registry.WriteAtomic(table, w);
      if out == Written { log := log + PendingNotes(table); }
      match out
      case Written => return Finished;
      case Refused => return Thrown(RegistryCorrupt);
      case Failed => return Thrown(PersistFailed);
      case WriteDied => return Stopped;
    }

    method FinishRevokeRow(table: Table, i: nat, a: Answer, ghost k: Work) returns (changed: Table, end: Ending)
      requires Is(k) && k.end == Finished && k.table == table && i < |table|
      modifies this, registry
      ensures Is(FinishRevoke(k, i, a))
      ensures changed == FinishRevoke(k, i, a).table && end == FinishRevoke(k, i, a).end
    {
      changed := table;
      if a.reply == Transient { return changed, Thrown(RemoteTransient); }
      if a.reply == Raised { return changed, Thrown(RemoteRaised); }
      log := log + [Gone(table[i].user)];
      changed := changed[i := table[i].(status := Revoked, revokedAt := Some(a.now))];
      end := PersistFile(changed, a.w, k.(table := changed, log := log));
      if end == Finished { end := RevokedNow; }
    }

    method ReadFile(p: ReadPlan) returns (table: Table, end: Ending)
      modifies this, registry
      ensures var k := Open(old(registry.images), old(registry.latched), old(log), p);
              Is(k) && table == k.table && end == k.end
    {
      var out := registry.ReadRegistry(p);
      match out
      case Loaded(t) => {
        log := log + PendingNotes(t);
        return t, Finished;
      }
      case Corrupt => return [], Thrown(RegistryCorrupt);
      case ReadDied => return [], Stopped;
    }

    method RegisterPairedDevice(id: string, user: string, p: ReadPlan, w: WritePlan) returns (end: Ending)
      modifies this, registry
      ensures var k := Register(old(registry.images), old(registry.latched), old(log), id, user, p, w);
              Is(k) && end == k.end
    {
      ghost var k := Open(registry.images, registry.latched, log, p);
      var file;
      file, end := ReadFile(p);
      if end != Finished { return; }
      file := file + [Device(id, user, Active, None)];
      end := PersistFile(file, w, k.(table := file));
    }

    method RevokePairedDevice(id: string, p: ReadPlan, w: WritePlan, a: Answer) returns (end: Ending)
      modifies this, registry
      ensures var k := Revoke(old(registry.images), old(registry.latched), old(log), id, p, w, a);
              Is(k) && end == k.end
    {
      ghost var k := Open(registry.images, registry.latched, log, p);
      var file;
      file, end := ReadFile(p);
      if end != Finished { return; }
      var i := 0;
      while i < |file| && file[i].id != id
        invariant i <= |file| && i <= FindRow(file, id)
      {
        i := i + 1;
      }
      if i == |file| { return Thrown(NoSuchDevice); }
      if file[i].status == Revoked { return AlreadyRevoked; }
      if file[i].status == Active {
        file := file[i := file[i].(status := PendingRevoke, revokedAt := None)];
        end := PersistFile(file, w, k.(table := file));
        k := Persist(k.(table := file), w);
        if end != Finished { return; }
      }
      file, end := FinishRevokeRow(file, i, a, k);
    }

    method ReconcilePendingRevokes(skip: string, p: ReadPlan, answers: seq<Answer>) returns (end: Ending)
      modifies this, registry
      ensures var k := Reconcile(old(registry.images), old(registry.latched), old(log), skip, p, answers);
              Is(k) && end == k.end
    {
      ghost var k := Open(registry.images, registry.latched, log, p);
      ghost var whole := Reconcile(registry.images, registry.latched, log, skip, p, answers);
      var file;
      file, end := ReadFile(p);
      if end != Finished { return; }
      var i := 0;
      while i < |file|
        invariant i <= |file| && Is(k) && k.table == file
        invariant k.end == Finished && end == Finished
        invariant ReconcileFrom(k, i, skip, answers) == whole
      {
        if file[i].status == PendingRevoke && file[i].id != skip && i < |answers| {
          ghost var next := FinishRevoke(k, i, answers[i]);
          file, end := FinishRevokeRow(file, i, answers[i], k);
          if end == Stopped || end == Thrown(RegistryCorrupt) || end == Thrown(RemoteRaised) { return; }
          k := next.(end := Finished);
          end := Finished;
        }
        i := i + 1;
      }
    }
  }

  // ------------------------------------------------------------------ whole runs

  datatype Server = Server(images: Images, latched: bool, log: seq<Note>)

  datatype Call =
    | DoRegister(id: string, user: string, p: ReadPlan, w: WritePlan)
    | DoRevoke(id: string, p: ReadPlan, w: WritePlan, a: Answer)
    | DoReconcile(skip: string, p: ReadPlan, answers: seq<Answer>)
    | RestartProcess
    | LoseAny(keep: set<nat>)

  const Fresh := Server([EmptyDir], false, [])

  function After(k: Work): Server { Server(k.images, k.latched, k.log) }

  /** One operation of the serial queue, a restart, or a power loss that keeps any updates since the last sync. */
  function Serve(s: Server, c: Call): (t: Server)
  {
    match c
    case DoRegister(id, user, p, w) => After(Register(s.images, s.latched, s.log, id, user, p, w))
    case DoRevoke(id, p, w, a) => After(Revoke(s.images, s.latched, s.log, id, p, w, a))
    case DoReconcile(skip, p, answers) => After(Reconcile(s.images, s.latched, s.log, skip, p, answers))
    case RestartProcess => s.(latched := false)
    case LoseAny(keep) => s.(images := [Survive(s.images, keep)], latched := false)
  }

  function ServeAll(s: Server, calls: seq<Call>): (t: Server)
    decreases |calls|
  {
    if calls == [] then s else ServeAll(Serve(s, calls[0]), calls[1..])
  }

  lemma {:induction false} SurvivorIsProper(m: seq<Dir>, keep: set<nat>, log: seq<Note>)
    requires m != [] && forall i :: 0 <= i < |m| ==> FileIsProper(m[i].dest, log) && FileIsProper(m[i].bak, log)
    ensures var d := Survive(m, keep); FileIsProper(d.dest, log) && FileIsProper(d.bak, log)
  {
    if |m| > 1 { SurvivorIsProper(m[..|m| - 1], keep, log); }
  }

  lemma ServeIsProper(s: Server, c: Call)
    requires AllProper(s.images, s.log)
    ensures AllProper(Serve(s, c).images, Serve(s, c).log)
  {
    match c
    case DoRegister(id, user, p, w) => RegisterIsProper(s.images, s.latched, s.log, id, user, p, w);
    case DoRevoke(id, p, w, a) => RevokeIsProper(s.images, s.latched, s.log, id, p, w, a);
    case DoReconcile(skip, p, answers) => {
      OpenIsProper(s.images, s.latched, s.log, p);
      var k := Open(s.images, s.latched, s.log, p);
      if k.end == Finished { ReconcileIsProper(k, 0, skip, answers); }
    }
    case RestartProcess => {}
    case LoseAny(keep) => { SurvivorIsProper(s.images, keep, s.log); }
  }

  lemma {:induction false} RunsAreProper(s: Server, calls: seq<Call>)
    requires AllProper(s.images, s.log)
    ensures var t := ServeAll(s, calls); AllProper(t.images, t.log)
    decreases |calls|
  {
    if calls != [] {
      ServeIsProper(s, calls[0]);
      RunsAreProper(Serve(s, calls[0]), calls[1..]);
    }
  }

  /** After any run, with any faults, restarts and power losses that keep any updates: whatever table a read
      can load, each device that is revoked in it had first been stored as pending and then had its remote
      user deleted or reported missing. */
  lemma RevokedMeansConfirmed(calls: seq<Call>, latched: bool, p: ReadPlan)
    ensures var s := ServeAll(Fresh, calls);
            var r := ReadStep(s.images, latched, p);
            r.out.Loaded? ==> forall d :: d in r.out.table && d.status == Revoked ==> Confirmed(s.log, d.id, d.user)
  {
    RunsAreProper(Fresh, calls);
    var s := ServeAll(Fresh, calls);
    ReadKeepsProper(s.images, latched, p, s.log);
    var r := ReadStep(s.images, latched, p);
    if r.out.Loaded? {
      forall d | d in r.out.table && d.status == Revoked
        ensures Confirmed(s.log, d.id, d.user)
      {
        var i :| 0 <= i < |r.out.table| && r.out.table[i] == d;
        assert RowIsProper(r.out.table[i], s.log);
      }
    }
  }
}
