/** The paired-device registry (notification-devices.ts): one JSON file overwritten with a backup beside
    it, rolled back when the directory sync fails, and recovered on the next read. */
module Registry {
  import opened Common

  datatype Status = Active | PendingRevoke | Revoked

  datatype Device = Device(id: string, user: string, status: Status, revokedAt: Option<int>)

  type Table = seq<Device>

  /** A complete registry file, or bytes that do not parse. */
  datatype Content = Whole(table: Table) | Torn

  datatype Name = DestName | BakName | TmpName | UnrestoredName | FailedName

  /** The names the registry uses in its data directory. `failed` is the fail-closed marker file; `touched`
      are the names that the update leading here set. */
  datatype Dir = Dir(dest: Option<Content>, bak: Option<Content>, tmp: Option<Content>, unrestored: Option<Content>, failed: bool,
                     touched: set<Name>)

  const EmptyDir := Dir(None, None, None, None, false, {})

  /** An update carried out in another state: it sets the names it touches, and no others. */
  function Replay(d: Dir, u: Dir): Dir {
    Dir(if DestName in u.touched then u.dest else d.dest,
        if BakName in u.touched then u.bak else d.bak,
        if TmpName in u.touched then u.tmp else d.tmp,
        if UnrestoredName in u.touched then u.unrestored else d.unrestored,
        if FailedName in u.touched then u.failed else d.failed,
        u.touched)
  }

  /** One update leads from a state to the next; none removes the marker. */
  predicate Follows(d: Dir, next: Dir) { next == Replay(d, next) && (d.failed ==> next.failed) }

  // The updates that the registry makes.

  function NewTmp(d: Dir, c: Content): Dir { d.(tmp := Some(c), touched := {TmpName}) }

  function NoTmp(d: Dir): Dir { d.(tmp := None, touched := {TmpName}) }

  function BackedUp(d: Dir): Dir { d.(bak := d.dest, dest := None, touched := {BakName, DestName}) }

  function InstalledNew(d: Dir, table: Table): Dir { d.(dest := Some(Whole(table)), tmp := None, touched := {DestName, TmpName}) }

  function RestoredBak(d: Dir): Dir { d.(dest := d.bak, bak := None, touched := {DestName, BakName}) }

  function NoBak(d: Dir): Dir { d.(bak := None, touched := {BakName}) }

  function NewDest(d: Dir, c: Content): Dir { d.(dest := Some(c), touched := {DestName}) }

  function NoDest(d: Dir): Dir { d.(dest := None, touched := {DestName}) }

  function Quarantined(d: Dir): Dir { d.(unrestored := d.dest, dest := None, touched := {UnrestoredName, DestName}) }

  function Marked(d: Dir): Dir { d.(failed := true, touched := {FailedName}) }

  predicate FollowsAt(m: seq<Dir>, i: int)
    requires 0 < i < |m|
  {
    Follows(m[i - 1], m[i])
  }

  predicate Linked(m: seq<Dir>) {
    forall i :: 0 < i < |m| ==> FollowsAt(m, i)
  }

  /** The state of the directory at the last sync, and after each update since; the last one is visible. */
  type Images = m: seq<Dir> | m != [] && Linked(m) witness [EmptyDir]

  function Visible(m: Images): Dir
  {
    Last(m)
  }

  datatype Done = Done(images: Images, fate: Fate)

  lemma LinkedPush(m: Images, after: Dir)
    requires Follows(Visible(m), after)
    ensures Linked(m + [after])
  {
    var n := m + [after];
    forall i | 0 < i < |n|
      ensures FollowsAt(n, i)
    {
      assert i < |m| ==> FollowsAt(m, i);
    }
  }

  /** One update of the visible directory. */
  function Update(m: Images, after: Dir, f: Fault): (r: Done)
    requires Follows(Visible(m), after)
  {
    LinkedPush(m, after);
    Done(if TookEffect(f) then m + [after] else m, FateOf(f))
  }

  function SyncDir(m: Images, f: Fault): (r: Done)
  {
    Done(if TookEffect(f) then [Visible(m)] else m, FateOf(f))
  }

  // ------------------------------------------------------------------ reading

  datatype ReadPlan = ReadPlan(dropTmp: Fault, restore: Fault, dropBak: Fault, read: Fault)

  datatype ReadOutcome = Loaded(table: Table) | Corrupt | ReadDied

  /** The registry after an operation; `latched` is the in-memory fail-closed flag. */
  datatype Store<T> = Store(images: Images, latched: bool, out: T)

  /** recoverCrashTmpSync: a leftover temporary file goes; failing to remove it is only reported. */
  function RecoverTmp(m: Images, f: Fault): (r: Done)
  {
    if Visible(m).tmp.None? then Done(m, Ran) else
    var t := Update(m, NoTmp(Visible(m)), f);
    if t.fate == Threw then Done(t.images, Ran) else t
  }

  /** recoverBackupSync. Threw stands for the thrown corruption error, which also latches. */
  function RecoverBackup(m: Images, p: ReadPlan): (r: Done)
  {
    var v := Visible(m);
    if v.unrestored.Some? && v.bak.Some? then Done(m, Threw)
    else if v.bak.None? then Done(m, Ran)
    else if v.dest.None? then Update(m, RestoredBak(v), p.restore)
    else
      var t := Update(m, NoBak(v), p.dropBak);
      if t.fate == Threw then Done(t.images, Ran) else t
  }

  function ReadDest(m: Images, f: Fault): Store<ReadOutcome>
  {
    match Visible(m).dest
    case None => Store(m, false, Loaded([]))
    case Some(c) =>
      if FateOf(f) == Died then Store(m, false, ReadDied)
      else if FateOf(f) == Threw || c == Torn then Store(m, true, Corrupt)
      else Store(m, false, Loaded(c.table))
  }

  function ReadStep(m: Images, latched: bool, p: ReadPlan): (r: Store<ReadOutcome>)
  {
    if latched || Visible(m).failed then Store(m, true, Corrupt) else
    var t := RecoverTmp(m, p.dropTmp);
    if t.fate == Died then Store(t.images, false, ReadDied) else
    var b := RecoverBackup(t.images, p);
    if b.fate == Died then Store(b.images, false, ReadDied)
    else if b.fate == Threw then Store(b.images, true, Corrupt)
    else ReadDest(b.images, p.read)
  }

  /** What a fresh process that meets no fault reads from a directory; None is the fail-closed error. */
  function Reads(d: Dir): Option<Table> {
    if d.failed || (d.unrestored.Some? && d.bak.Some?) then None else
    var c := if d.dest.None? then d.bak else d.dest;
    match c
    case None => Some([])
    case Some(Whole(t)) => Some(t)
    case Some(Torn) => None
  }

  // ------------------------------------------------------------------ writing

  datatype WritePlan = WritePlan(
    readOld: Fault, fill: Fault, finish: Fault, backUp: Fault, install: Fault, sync: Fault, dropBak: Fault,
    undoCreate: Fault, restore: Fault, rewrite: Fault, rewriteEnd: Fault, quarantine: Fault, removeNew: Fault,
    syncAgain: Fault, markFailed: Fault)

  /** Written: the call returned. Refused: it threw the corruption error. Failed: it threw another error. */
  datatype WriteOutcome = Written | Refused | Failed | WriteDied

  /** writeFileSync over the destination: it is torn until the last byte is there. */
  function Rewrite(m: Images, c: Content, p: WritePlan): (r: Done)
  {
    var t := Update(m, NewDest(Visible(m), Torn), p.rewrite);
    if t.fate != Ran then t else Update(t.images, NewDest(Visible(t.images), c), p.rewriteEnd)
  }

  /** The last resort: move the new file out of the way, or remove it, so that the backup is not dropped. */
  function SetAside(m: Images, p: WritePlan): (r: Done)
    ensures r.fate != Threw
  {
    var v := Visible(m);
    if v.dest.None? then Done(m, Ran) else
    var q := Update(m, Quarantined(v), p.quarantine);
    if q.fate != Threw then q else
    var w := Visible(q.images);
    var x := Update(q.images, NoDest(w), p.removeNew);
    if x.fate == Threw then Done(x.images, Ran) else x
  }

  /** restoreOverwrittenRegistry: the backup first, then the copy in memory, then quarantine. Threw is
      the corruption error, which also latches. */
  function Restore(m: Images, previous: Content, p: WritePlan): (r: Done)
  {
    var v := Visible(m);
    var b := if v.bak.Some? then Update(m, RestoredBak(v), p.restore) else Done(m, Threw);
    if b.fate != Threw then b else
    var w := Rewrite(b.images, previous, p);
    if w.fate != Threw then w else
    var q := SetAside(w.images, p);
    Done(q.images, if q.fate == Died then Died else Threw)
  }

  /** Put the old file back, or remove the new one when there was none; failing to remove it is ignored. */
  function Undo(m: Images, previous: Option<Content>, p: WritePlan): (r: Done)
  {
    if previous.Some? then Restore(m, previous.value, p) else
    var x := Update(m, NoDest(Visible(m)), p.undoCreate);
    if x.fate == Threw then Done(x.images, Ran) else x
  }

  /** What happens after the first directory sync failed. */
  function RollBack(m: Images, previous: Option<Content>, p: WritePlan): (r: Store<WriteOutcome>)
  {
    var u := Undo(m, previous, p);
    if u.fate == Died then Store(u.images, false, WriteDied) else
    var s := SyncDir(u.images, p.syncAgain);
    if s.fate == Died then Store(s.images, false, WriteDied)
    else if s.fate == Threw then
      var f := Update(s.images, Marked(Visible(s.images)), p.markFailed);
      Store(f.images, true, if f.fate == Died then WriteDied else Refused)
    else Store(s.images, u.fate == Threw, if u.fate == Threw then Refused else Failed)
  }

  /** After the new file is installed: sync, then drop the backup or roll back. */
  function Conclude(m: Images, previous: Option<Content>, p: WritePlan): (r: Store<WriteOutcome>)
  {
    var s := SyncDir(m, p.sync);
    if s.fate == Died then Store(s.images, false, WriteDied)
    else if s.fate == Threw then RollBack(s.images, previous, p)
    else if previous.None? then Store(s.images, false, Written)
    else
      var x := Update(s.images, NoBak(Visible(s.images)), p.dropBak);
      Store(x.images, false, if x.fate == Died then WriteDied else Written)
  }

  /** The replacement itself: back up, install, conclude. */
  function Replace(m: Images, table: Table, p: WritePlan): (r: Store<WriteOutcome>)
  {
    var previous := Visible(m).dest;
    var b := if previous.Some? then Update(m, BackedUp(Visible(m)), p.backUp) else Done(m, Ran);
    if b.fate != Ran then Store(b.images, false, if b.fate == Died then WriteDied else Failed) else
    var i := Update(b.images, InstalledNew(Visible(b.images), table), p.install);
    if i.fate != Ran then Store(i.images, false, if i.fate == Died then WriteDied else Failed) else
    Conclude(i.images, previous, p)
  }

  /** writeAtomicSync. */
  function WriteStep(m: Images, latched: bool, table: Table, p: WritePlan): (r: Store<WriteOutcome>)
  {
    var v := Visible(m);
    if latched || v.failed || (v.bak.Some? && v.dest.None?) then Store(m, true, Refused)
    else if v.dest.Some? && FateOf(p.readOld) != Ran then Store(m, false, if FateOf(p.readOld) == Died then WriteDied else Failed)
    else
      var t := Update(m, NewTmp(v, Torn), p.fill);
      if t.fate != Ran then Store(t.images, false, if t.fate == Died then WriteDied else Failed) else
      var w := Update(t.images, NewTmp(Visible(t.images), Whole(table)), p.finish);
      if w.fate != Ran then Store(w.images, false, if w.fate == Died then WriteDied else Failed) else
      Replace(w.images, table, p)
  }

  // ------------------------------------------------------------------ recovery is exact

  /** A directory from which recovery can only produce an allowed table or the error. */
  predicate Sound(d: Dir, allowed: set<Table>) {
    match d.dest
    case Some(Whole(t)) => t in allowed
    case Some(Torn) => true
    case None =>
      match d.bak
      case Some(Whole(t)) => t in allowed
      case Some(Torn) => true
      case None => d.failed || [] in allowed
  }

  ghost predicate AllSound(m: Images, allowed: set<Table>) {
    forall i :: 0 <= i < |m| ==> Sound(m[i], allowed)
  }

  /** Setting the new file aside takes it away. */
  predicate RemovesNew(p: WritePlan) {
    TookEffect(p.quarantine) || (p.quarantine == Throws && TookEffect(p.removeNew))
  }

  /** The copy in memory cannot be written back. */
  predicate RewriteThrows(p: WritePlan) {
    FateOf(p.rewrite) == Threw || (p.rewrite == Works && FateOf(p.rewriteEnd) == Threw)
  }

  /** The one way to lose both copies: the rename of the backup reports an error after taking effect, the
      copy in memory is then written over it, that write fails, and the file is set aside. */
  predicate LosesBackup(p: WritePlan) {
    && FateOf(p.sync) == Threw && p.restore == ThrowsLate
    && RewriteThrows(p) && RemovesNew(p)
  }

  lemma SoundSays(d: Dir, allowed: set<Table>)
    requires Sound(d, allowed)
    ensures Reads(d).Some? ==> Reads(d).value in allowed
  {
  }

  lemma ReadKeepsSound(m: Images, latched: bool, p: ReadPlan, allowed: set<Table>)
    requires AllSound(m, allowed)
    ensures var r := ReadStep(m, latched, p);
            AllSound(r.images, allowed) && (r.out.Loaded? ==> r.out.table in allowed && !r.latched)
  {
    if !latched && !Visible(m).failed {
      var t := RecoverTmp(m, p.dropTmp);
      assert AllSound(t.images, allowed);
      if t.fate != Died {
        var b := RecoverBackup(t.images, p);
        assert AllSound(b.images, allowed);
      }
    }
  }

  lemma SoundGrows(m: Images, allowed: set<Table>, more: set<Table>)
    requires AllSound(m, allowed) && allowed <= more
    ensures AllSound(m, more)
  {
  }

  lemma SetAsideKeepsSound(m: Images, p: WritePlan, allowed: set<Table>)
    requires AllSound(m, allowed)
    requires RemovesNew(p) ==>
               if Visible(m).bak.Some? then Visible(m).bak.value.Whole? ==> Visible(m).bak.value.table in allowed else [] in allowed
    ensures AllSound(SetAside(m, p).images, allowed)
  {
  }

  lemma RewriteKeepsSound(m: Images, c: Content, p: WritePlan, allowed: set<Table>)
    requires AllSound(m, allowed) && (c.Whole? ==> c.table in allowed)
    ensures AllSound(Rewrite(m, c, p).images, allowed) && Visible(Rewrite(m, c, p).images).bak == Visible(m).bak
    ensures Rewrite(m, c, p).fate == Threw <==> RewriteThrows(p)
  {
    var t := Update(m, NewDest(Visible(m), Torn), p.rewrite);
    assert AllSound(t.images, allowed);
  }

  /** Rolling back an overwrite whose backup is in place. */
  lemma RestoreKeepsSound(m: Images, previous: Content, p: WritePlan, allowed: set<Table>)
    requires AllSound(m, allowed) && FateOf(p.sync) == Threw && (LosesBackup(p) ==> [] in allowed)
    requires Visible(m).bak == Some(previous) && (previous.Whole? ==> previous.table in allowed)
    ensures AllSound(Restore(m, previous, p).images, allowed)
  {
    var v := Visible(m);
    var b := Update(m, RestoredBak(v), p.restore);
    assert AllSound(b.images, allowed);
    if b.fate == Threw {
      RewriteKeepsSound(b.images, previous, p, allowed);
      var w := Rewrite(b.images, previous, p);
      if w.fate == Threw {
        SetAsideKeepsSound(w.images, p, allowed);
      }
    }
  }

  lemma RollBackKeepsSound(m: Images, previous: Option<Content>, p: WritePlan, allowed: set<Table>)
    requires AllSound(m, allowed) && FateOf(p.sync) == Threw && (LosesBackup(p) ==> [] in allowed)
    requires previous.Some? ==> Visible(m).bak == previous && (previous.value.Whole? ==> previous.value.table in allowed)
    requires previous.None? ==> Visible(m).bak.None? && [] in allowed
    ensures AllSound(RollBack(m, previous, p).images, allowed)
  {
    if previous.Some? {
      RestoreKeepsSound(m, previous.value, p, allowed);
    } else {
      assert AllSound(Update(m, NoDest(Visible(m)), p.undoCreate).images, allowed);
    }
    var u := Undo(m, previous, p);
    assert AllSound(u.images, allowed);
    assert AllSound(SyncDir(u.images, p.syncAgain).images, allowed);
  }

  /** Whatever fails or stops during a write, recovery from every state it may leave gives a table that
      was allowed before, or the new one, or the error (or an empty one, if the write loses the backup); and
      a write that returned leaves only the new one. */
  lemma WriteKeepsSound(m: Images, latched: bool, table: Table, p: WritePlan, allowed: set<Table>)
    requires AllSound(m, allowed) && (LosesBackup(p) ==> [] in allowed)
    ensures var r := WriteStep(m, latched, table, p);
            && AllSound(r.images, allowed + {table})
            && (r.out == Written ==> AllSound(r.images, {table}) && !r.latched)
  {
    var all := allowed + {table};
    SoundGrows(m, allowed, all);
    var v := Visible(m);
    var t := Update(m, NewTmp(v, Torn), p.fill);
    var w := Update(t.images, NewTmp(Visible(t.images), Whole(table)), p.finish);
    assert AllSound(w.images, all);
    if !(latched || v.failed || (v.bak.Some? && v.dest.None?)) && t.fate == Ran && w.fate == Ran {
      ReplaceKeepsSound(w.images, table, p, all);
    }
  }

  lemma ConcludeKeepsSound(m: Images, previous: Option<Content>, table: Table, p: WritePlan, all: set<Table>)
    requires AllSound(m, all) && (LosesBackup(p) ==> [] in all) && Visible(m).dest == Some(Whole(table))
    requires previous.Some? ==> Visible(m).bak == previous && (previous.value.Whole? ==> previous.value.table in all)
    requires previous.None? ==> Visible(m).bak.None? && [] in all
    ensures var r := Conclude(m, previous, p);
            AllSound(r.images, all) && (r.out == Written ==> AllSound(r.images, {table}) && !r.latched)
  {
    var s := SyncDir(m, p.sync);
    assert AllSound(s.images, all);
    if s.fate == Threw {
      RollBackKeepsSound(s.images, previous, p, all);
      RollBackNeverReports(s.images, previous, p);
    }
  }

  lemma RollBackNeverReports(m: Images, previous: Option<Content>, p: WritePlan)
    ensures RollBack(m, previous, p).out != Written
  {
  }

  lemma ReplaceKeepsSound(m: Images, table: Table, p: WritePlan, all: set<Table>)
    requires AllSound(m, all) && (LosesBackup(p) ==> [] in all) && table in all
    requires !Visible(m).failed && !(Visible(m).bak.Some? && Visible(m).dest.None?)
    ensures var r := Replace(m, table, p);
            && AllSound(r.images, all)
            && (r.out == Written ==> AllSound(r.images, {table}) && !r.latched)
  {
    var previous := Visible(m).dest;
    var b := if previous.Some? then Update(m, BackedUp(Visible(m)), p.backUp) else Done(m, Ran);
    assert AllSound(b.images, all);
    if b.fate == Ran {
      var i := Update(b.images, InstalledNew(Visible(b.images), table), p.install);
      assert AllSound(i.images, all);
      if i.fate == Ran { ConcludeKeepsSound(i.images, previous, table, p, all); }
    }
  }

  /** A rewrite without a backup that fails, and is then set aside, leaves neither file nor backup. */
  lemma RewriteLoses(m: Images, previous: Content, p: WritePlan)
    requires LosesBackup(p) && Visible(m).bak.None? && !Visible(m).failed
    ensures var w := Rewrite(m, previous, p);
            w.fate == Threw && Reads(Visible(SetAside(w.images, p).images)) == Some([])
  {
  }

  lemma RestoreLoses(m: Images, previous: Content, p: WritePlan)
    requires LosesBackup(p) && Visible(m).bak.Some? && !Visible(m).failed
    ensures var r := Restore(m, previous, p); r.fate != Ran && Reads(Visible(r.images)) == Some([])
  {
    hide Rewrite, SetAside;
    var v := Visible(m);
    RewriteLoses(Update(m, RestoredBak(v), p.restore).images, previous, p);
  }

  lemma RollBackLoses(m: Images, previous: Content, p: WritePlan)
    requires LosesBackup(p) && Visible(m).bak.Some? && !Visible(m).failed
    ensures exists i :: 0 <= i < |RollBack(m, Some(previous), p).images| && Reads(RollBack(m, Some(previous), p).images[i]) == Some([])
  {
    RestoreLoses(m, previous, p);
    var u := Restore(m, previous, p);
    var s := SyncDir(u.images, p.syncAgain);
    var i := |s.images| - 1;
    assert u.fate != Died ==> Reads(s.images[i]) == Some([]);
    var r := RollBack(m, Some(previous), p);
    if u.fate == Died {
      assert Reads(r.images[|r.images| - 1]) == Some([]);
    } else {
      assert r.images[i] == s.images[i];
    }
  }

  /** A registry at rest. */
  function Clean(before: Table): Dir { Dir(Some(Whole(before)), None, None, None, false, {}) }

  /** The directory states of an overwrite of a clean registry, up to the installed file. */
  function Installed(before: Table, table: Table): (r: Images)
  {
    var d := Clean(before);
    var moved := BackedUp(NewTmp(d, Whole(table)));
    [d, NewTmp(d, Torn), NewTmp(d, Whole(table)), moved, InstalledNew(moved, table)]
  }

  predicate ReachesInstall(p: WritePlan) {
    p.readOld == Works && p.fill == Works && p.finish == Works && p.backUp == Works && p.install == Works
  }

  lemma InstallIsReached(before: Table, table: Table, p: WritePlan)
    requires ReachesInstall(p)
    ensures WriteStep([Clean(before)], false, table, p) == Conclude(Installed(before, table), Some(Whole(before)), p)
  {
    var d := Clean(before);
    var i := Installed(before, table);
    assert [d] + [i[1]] == i[..2];
    assert i[..2] + [i[2]] == i[..3];
    assert i[..3] + [i[3]] == i[..4];
    assert i[..4] + [i[4]] == i;
  }

  /** A write that stops before or at the installation leaves the old table, or the new one if the
      installation took effect all the same. */
  lemma EarlyStopIsExact(before: Table, table: Table, p: WritePlan)
    requires !ReachesInstall(p)
    ensures var r := WriteStep([Clean(before)], false, table, p);
            && r.out != Written && r.out != Refused && !r.latched
            && (forall i :: 0 <= i < |r.images| ==> Reads(r.images[i]) == Some(before) || (TookEffect(p.install) && Reads(r.images[i]) == Some(table)))
  {
    var d := Clean(before);
    if p.readOld == Works && p.fill == Works && p.finish == Works {
      var m := Installed(before, table)[..3];
      assert [d] + [m[1]] + [m[2]] == m;
      assert WriteStep([d], false, table, p) == Replace(m, table, p);
      EarlyReplaceIsExact(m, before, table, p);
    }
  }

  lemma EarlyReplaceIsExact(m: Images, before: Table, table: Table, p: WritePlan)
    requires m == Installed(before, table)[..3] && (p.backUp != Works || p.install != Works)
    ensures var r := Replace(m, table, p);
            && r.out != Written && r.out != Refused && !r.latched
            && (forall i :: 0 <= i < |r.images| ==> Reads(r.images[i]) == Some(before) || (TookEffect(p.install) && Reads(r.images[i]) == Some(table)))
  {
    assert forall i :: 0 <= i < |m| ==> Reads(m[i]) == Some(before);
  }

  /** The condition is exact: from a clean registry, some state a write may leave recovers to an empty
      table if and only if the write reached its roll-back and lost both copies there. */
  lemma EmptyExactlyWhenBackupLost(before: Table, table: Table, p: WritePlan)
    requires before != [] && table != []
    ensures var images := WriteStep([Clean(before)], false, table, p).images;
            (exists i :: 0 <= i < |images| && Reads(images[i]) == Some([])) <==> ReachesInstall(p) && LosesBackup(p)
  {
    if !ReachesInstall(p) {
      EarlyStopIsExact(before, table, p);
    } else if !LosesBackup(p) {
      WriteKeepsSound([Clean(before)], false, table, p, {before});
    } else {
      InstallIsReached(before, table, p);
      RollBackLoses(SyncDir(Installed(before, table), p.sync).images, Whole(before), p);
    }
  }

  /** The calls of a write, in a fixed order. */
  function Calls(p: WritePlan): seq<Fault> {
    [p.readOld, p.fill, p.finish, p.backUp, p.install, p.sync, p.dropBak, p.undoCreate, p.restore,
     p.rewrite, p.rewriteEnd, p.quarantine, p.removeNew, p.syncAgain, p.markFailed]
  }

  /** Every call works, except that call number `k` may do anything. */
  predicate OnlyOneMayFail(p: WritePlan, k: nat) {
    forall i :: 0 <= i < |Calls(p)| ==> Calls(p)[i] == Works || i == k
  }

  /** A directory that holds this table, with whatever an earlier operation left beside it. */
  predicate Holds(d: Dir, before: Table) { d.dest == Some(Whole(before)) && d.unrestored.None? && !d.failed }

  predicate AllRead(m: Images, allowed: set<Option<Table>>) {
    forall i :: 0 <= i < |m| ==> Reads(m[i]) in allowed
  }

  /** If at most one call fails, a write is all or nothing: it returns and every state it may leave
      recovers to the new table, or it throws and each recovers to the old one, or the process dies and each
      recovers to one of the two. The only exception is a rename of the new file that reports an error after
      taking effect: the write throws, and the new table is there. */
  lemma OneFailureIsAtomic(d: Dir, before: Table, table: Table, p: WritePlan, k: nat)
    requires OnlyOneMayFail(p, k) && Holds(d, before)
    ensures var r := WriteStep([d], false, table, p);
            && r.out != Refused && !r.latched
            && (r.out == Written ==> AllRead(r.images, {Some(table)}))
            && (r.out == WriteDied ==> AllRead(r.images, {Some(before), Some(table)}))
            && (r.out == Failed && p.install != ThrowsLate ==> AllRead(r.images, {Some(before)}))
            && (p.install == ThrowsLate ==> r.out == Failed && Reads(Visible(r.images)) == Some(table))
  {
    hide OnlyOneMayFail, Replace;
    OtherCallsWork(p, k);
    if p.readOld == Works && p.fill == Works && p.finish == Works {
      var t, w := NewTmp(d, Torn), NewTmp(d, Whole(table));
      var m: Images := [d] + [t] + [w];
      assert WriteStep([d], false, table, p) == Replace(m, table, p);
      assert AllRead(m, {Some(before)});
      OneFailureInReplace(m, before, table, p);
    }
  }

  lemma OtherCallsWork(p: WritePlan, k: nat)
    requires OnlyOneMayFail(p, k)
    ensures p.readOld != Works || p.fill != Works || p.finish != Works ==> p.install == Works
    ensures p.backUp == Works || (p.install == p.sync == Works)
    ensures p.install == Works || p.sync == Works
    ensures p.install == Works || (p.readOld == p.fill == p.finish == p.backUp == Works)
    ensures p.sync == Works || (p.dropBak == p.restore == p.syncAgain == Works)
  {
    var c := Calls(p);
    assert c[0] == p.readOld && c[1] == p.fill && c[2] == p.finish && c[3] == p.backUp && c[4] == p.install;
    assert c[5] == p.sync && c[6] == p.dropBak && c[8] == p.restore && c[13] == p.syncAgain;
  }

  lemma OneFailureInReplace(m: Images, before: Table, table: Table, p: WritePlan)
    requires Holds(Visible(m), before) && AllRead(m, {Some(before)})
    requires p.backUp == Works || (p.install == p.sync == Works)
    requires p.install == Works || p.sync == Works
    requires p.sync == Works || (p.dropBak == p.restore == p.syncAgain == Works)
    ensures var r := Replace(m, table, p);
            && r.out != Refused && !r.latched
            && (r.out == Written ==> AllRead(r.images, {Some(table)}))
            && (r.out == WriteDied ==> AllRead(r.images, {Some(before), Some(table)}))
            && (r.out == Failed && p.install != ThrowsLate ==> AllRead(r.images, {Some(before)}))
            && (p.backUp == Works && p.install == ThrowsLate ==> r.out == Failed && Reads(Visible(r.images)) == Some(table))
  {
    var b := Update(m, BackedUp(Visible(m)), p.backUp);
    assert AllRead(b.images, {Some(before)});
    if b.fate == Ran {
      var i := Update(b.images, InstalledNew(Visible(b.images), table), p.install);
      assert AllRead(i.images, {Some(before), Some(table)});
      if i.fate == Ran { OneFailureInConclude(i.images, before, table, p); }
    }
  }

  lemma OneFailureInConclude(m: Images, before: Table, table: Table, p: WritePlan)
    requires var v := Visible(m); Holds(v, table) && v.bak == Some(Whole(before)) && AllRead(m, {Some(before), Some(table)})
    requires p.sync == Works || (p.dropBak == p.restore == p.syncAgain == Works)
    ensures var r := Conclude(m, Some(Whole(before)), p);
            && r.out != Refused && !r.latched
            && (r.out == Written ==> AllRead(r.images, {Some(table)}))
            && (r.out == WriteDied ==> AllRead(r.images, {Some(before), Some(table)}))
            && (r.out == Failed ==> AllRead(r.images, {Some(before)}))
  {
  }

  // ------------------------------------------------------------------ when updates reach the disk out of order

  /** The directory after a power loss that kept only these updates since the last sync. */
  function Survive(m: seq<Dir>, keep: set<nat>): (d: Dir)
    requires m != []
  {
    if |m| == 1 then m[0] else
    var d := Survive(m[..|m| - 1], keep);
    if |m| - 1 in keep then Replay(d, Last(m)) else d
  }

  function FirstUpdates(k: nat): (r: set<nat>)
    ensures forall i: nat :: i in r <==> 1 <= i <= k
  {
    if k == 0 then {} else FirstUpdates(k - 1) + {k}
  }

  lemma {:induction false} KeepsAllBefore(m: seq<Dir>, k: nat, more: set<nat>)
    requires Linked(m) && k < |m| && (forall i :: i in more ==> i >= |m|)
    ensures Survive(m, FirstUpdates(k) + more) == m[k]
  {
    if |m| > 1 {
      var init := m[..|m| - 1];
      assert Linked(init) by {
        forall i | 0 < i < |init|
          ensures FollowsAt(init, i)
        {
          assert FollowsAt(m, i);
        }
      }
      assert FollowsAt(m, |m| - 1);
      if k < |init| {
        KeepsAllBefore(init, k, more);
      } else {
        KeepsAllBefore(init, k - 1, more + {k});
        assert FirstUpdates(k) + more == FirstUpdates(k - 1) + (more + {k});
      }
    }
  }

  /** Keeping the first updates is one way to keep some of them. */
  lemma InOrderIsOneWay(m: Images, k: nat)
    requires k < |m|
    ensures Survive(m, FirstUpdates(k)) == m[k]
  {
    KeepsAllBefore(m, k, {});
    assert FirstUpdates(k) + {} == FirstUpdates(k);
  }

  ghost predicate AnySound(m: Images, allowed: set<Table>) {
    forall keep: set<nat> :: Sound(Survive(m, keep), allowed)
  }

  lemma {:induction false} DestStays(m: seq<Dir>, keep: set<nat>)
    requires m != [] && forall i :: 0 <= i < |m| ==> m[i].dest.Some?
    ensures Survive(m, keep).dest.Some?
  {
    if |m| > 1 { DestStays(m[..|m| - 1], keep); }
  }

  lemma {:induction false} BakStays(m: seq<Dir>, bak: Option<Content>, keep: set<nat>)
    requires m != [] && forall i :: 0 <= i < |m| ==> m[i].bak == bak
    ensures Survive(m, keep).bak == bak
  {
    if |m| > 1 { BakStays(m[..|m| - 1], bak, keep); }
  }

  predicate Fine(c: Option<Content>, allowed: set<Table>) { c.Some? && (c.value.Whole? ==> c.value.table in allowed) }

  /** An update that does no harm wherever it is carried out: it sets the file, or takes it away into the
      backup, or leaves both alone. */
  predicate Harmless(u: Dir, allowed: set<Table>) {
    && (FailedName in u.touched ==> u.failed)
    && if DestName !in u.touched then BakName !in u.touched
       else Fine(u.dest, allowed) || (u.dest.None? && BakName in u.touched && Fine(u.bak, allowed))
  }

  lemma SurviveMore(m: seq<Dir>, after: Dir, keep: set<nat>)
    requires m != []
    ensures Survive(m + [after], keep) == if |m| in keep then Replay(Survive(m, keep), after) else Survive(m, keep)
  {
    assert (m + [after])[..|m|] == m;
  }

  /** An update after which every surviving state is sound. */
  lemma AddSound(m: Images, after: Dir, f: Fault, allowed: set<Table>)
    requires AnySound(m, allowed) && Follows(Visible(m), after)
    requires TookEffect(f) ==> forall keep: set<nat> :: Sound(Replay(Survive(m, keep), after), allowed)
    ensures AnySound(Update(m, after, f).images, allowed)
  {
    if TookEffect(f) {
      var n := Update(m, after, f).images;
      forall keep: set<nat>
        ensures Sound(Survive(n, keep), allowed)
      {
        SurviveMore(m, after, keep);
      }
    }
  }

  lemma AddHarmless(m: Images, after: Dir, f: Fault, allowed: set<Table>)
    requires AnySound(m, allowed) && Follows(Visible(m), after) && Harmless(after, allowed)
    ensures AnySound(Update(m, after, f).images, allowed)
  {
    forall keep: set<nat>
      ensures Sound(Replay(Survive(m, keep), after), allowed)
    {
      assert Sound(Survive(m, keep), allowed);
    }
    AddSound(m, after, f, allowed);
  }

  /** Taking the file away is harmless while every surviving state has a backup, or none needs one. */
  lemma AddRemoval(m: Images, after: Dir, f: Fault, bak: Option<Content>, allowed: set<Table>)
    requires AnySound(m, allowed) && Follows(Visible(m), after)
    requires after.dest.None? && DestName in after.touched && BakName !in after.touched && FailedName !in after.touched
    requires (forall i :: 0 <= i < |m| ==> m[i].bak == bak) && if bak.Some? then Fine(bak, allowed) else [] in allowed
    ensures AnySound(Update(m, after, f).images, allowed)
  {
    forall keep: set<nat>
      ensures Sound(Replay(Survive(m, keep), after), allowed)
    {
      BakStays(m, bak, keep);
    }
    AddSound(m, after, f, allowed);
  }

  lemma AddNoBak(m: Images, f: Fault, allowed: set<Table>)
    requires AnySound(m, allowed) && forall i :: 0 <= i < |m| ==> m[i].dest.Some?
    ensures AnySound(Update(m, NoBak(Visible(m)), f).images, allowed)
  {
    var after := NoBak(Visible(m));
    forall keep: set<nat>
      ensures Sound(Replay(Survive(m, keep), after), allowed)
    {
      DestStays(m, keep);
      assert Sound(Survive(m, keep), allowed);
    }
    AddSound(m, after, f, allowed);
  }

  lemma OneImage(d: Dir, allowed: set<Table>)
    requires Sound(d, allowed)
    ensures AnySound([d], allowed)
  {
  }

  // ------------------------------------------------------------------ what every subset keeps

  /** A read that removes the backup while some update since the last sync had taken the file away. */
  predicate DropsEarly(m: Images, latched: bool, p: ReadPlan) {
    var v := Visible(m);
    && !latched && !v.failed && (v.tmp.Some? ==> FateOf(p.dropTmp) != Died)
    && v.bak.Some? && v.unrestored.None? && v.dest.Some? && TookEffect(p.dropBak)
    && exists i :: 0 <= i < |m| && m[i].dest.None?
  }

  predicate SetAsideDies(p: WritePlan) {
    FateOf(p.quarantine) == Died || (FateOf(p.quarantine) == Threw && FateOf(p.removeNew) == Died)
  }

  /** A roll-back that sets the new file aside before the move of the old one to the backup is on disk, and
      whose own sync does not follow. */
  predicate SetsAsideUnsynced(p: WritePlan) {
    && p.sync == Throws && p.restore == Throws && RewriteThrows(p) && RemovesNew(p)
    && (SetAsideDies(p) || !TookEffect(p.syncAgain))
  }

  /** With neither file nor backup, there has been no backup since the last sync. */
  ghost predicate Tidy(m: Images) {
    Visible(m).dest.None? && Visible(m).bak.None? ==> forall i :: 0 <= i < |m| ==> m[i].bak.None?
  }

  lemma RecoverTmpKeepsAnySound(m: Images, f: Fault, allowed: set<Table>)
    requires AllSound(m, allowed) && AnySound(m, allowed) && Tidy(m)
    ensures var t := RecoverTmp(m, f).images;
            && AllSound(t, allowed) && AnySound(t, allowed) && Tidy(t)
            && Visible(t).dest == Visible(m).dest && Visible(t).bak == Visible(m).bak && Visible(t).unrestored == Visible(m).unrestored
            && ((forall i :: 0 <= i < |m| ==> m[i].dest.Some?) ==> forall i :: 0 <= i < |t| ==> t[i].dest.Some?)
  {
    hide AnySound, Survive, Linked;
    if Visible(m).tmp.Some? {
      AddHarmless(m, NoTmp(Visible(m)), f, allowed);
    }
  }

  lemma RecoverBackupKeepsAnySound(m: Images, p: ReadPlan, allowed: set<Table>)
    requires AllSound(m, allowed) && AnySound(m, allowed) && Tidy(m)
    requires var v := Visible(m);
             v.bak.Some? && v.unrestored.None? && v.dest.Some? && TookEffect(p.dropBak) ==> forall i :: 0 <= i < |m| ==> m[i].dest.Some?
    ensures var b := RecoverBackup(m, p).images; AnySound(b, allowed) && Tidy(b)
  {
    hide AnySound, Survive, Linked;
    var v := Visible(m);
    if v.unrestored.None? && v.bak.Some? {
      if v.dest.None? {
        assert Sound(v, allowed);
        AddHarmless(m, RestoredBak(v), p.restore, allowed);
      } else if TookEffect(p.dropBak) {
        AddNoBak(m, p.dropBak, allowed);
      }
    }
  }

  /** A read that drops no backup early keeps every surviving state sound. */
  lemma ReadKeepsAnySound(m: Images, latched: bool, p: ReadPlan, allowed: set<Table>)
    requires AllSound(m, allowed) && AnySound(m, allowed) && Tidy(m) && !DropsEarly(m, latched, p)
    ensures var r := ReadStep(m, latched, p); AnySound(r.images, allowed) && Tidy(r.images)
  {
    hide AnySound, Survive, Linked, AllSound, Tidy, RecoverBackup;
    if !latched && !Visible(m).failed {
      RecoverTmpKeepsAnySound(m, p.dropTmp, allowed);
      var t := RecoverTmp(m, p.dropTmp);
      if t.fate != Died { RecoverBackupKeepsAnySound(t.images, p, allowed); }
    }
  }

  lemma RewriteKeepsAnySound(m: Images, c: Content, p: WritePlan, allowed: set<Table>)
    requires AnySound(m, allowed) && Fine(Some(c), allowed)
    ensures var w := Rewrite(m, c, p).images;
            AnySound(w, allowed) && (forall i :: 0 <= i < |m| ==> w[i] == m[i]) && |m| <= |w|
            && (forall i :: |m| <= i < |w| ==> w[i].bak == Visible(m).bak) && Visible(w).bak == Visible(m).bak
  {
    hide AnySound, Linked;
    AddHarmless(m, NewDest(Visible(m), Torn), p.rewrite, allowed);
    var t := Update(m, NewDest(Visible(m), Torn), p.rewrite);
    if t.fate == Ran { AddHarmless(t.images, NewDest(Visible(t.images), c), p.rewriteEnd, allowed); }
  }

  lemma SetAsideKeepsAnySound(m: Images, bak: Option<Content>, p: WritePlan, allowed: set<Table>)
    requires AnySound(m, allowed)
    requires RemovesNew(p) ==> (forall i :: 0 <= i < |m| ==> m[i].bak == bak) && Fine(bak, allowed)
    ensures AnySound(SetAside(m, p).images, allowed)
  {
    hide AnySound, Linked;
    var v := Visible(m);
    if v.dest.Some? && RemovesNew(p) {
      AddRemoval(m, Quarantined(v), p.quarantine, bak, allowed);
      var q := Update(m, Quarantined(v), p.quarantine);
      assert forall i :: 0 <= i < |q.images| ==> q.images[i].bak == bak;
      AddRemoval(q.images, NoDest(Visible(q.images)), p.removeNew, bak, allowed);
    }
  }

  /** A roll-back that puts the old file back, or whose updates are all in order. */
  lemma RestoreKeepsAnySound(m: Images, previous: Content, p: WritePlan, allowed: set<Table>)
    requires AnySound(m, allowed) && Visible(m).bak == Some(previous) && Fine(Some(previous), allowed)
    requires FateOf(p.restore) == Threw && RewriteThrows(p) && RemovesNew(p) ==>
               p.restore == Throws && forall i :: 0 <= i < |m| ==> m[i].bak == Some(previous)
    ensures AnySound(Restore(m, previous, p).images, allowed)
  {
    hide AnySound, Linked, SetAside, Rewrite;
    var v := Visible(m);
    AddHarmless(m, RestoredBak(v), p.restore, allowed);
    var b := Update(m, RestoredBak(v), p.restore);
    if b.fate == Threw {
      RewriteKeepsAnySound(b.images, previous, p, allowed);
      RewriteFate(b.images, previous, p);
      var w := Rewrite(b.images, previous, p);
      if w.fate == Threw { SetAsideKeepsAnySound(w.images, Some(previous), p, allowed); }
    }
  }

  lemma RewriteFate(m: Images, c: Content, p: WritePlan)
    ensures Rewrite(m, c, p).fate == Threw <==> RewriteThrows(p)
  {
  }

  lemma RestoreFate(m: Images, previous: Content, p: WritePlan)
    ensures Restore(m, previous, p).fate == Died && FateOf(p.restore) == Threw && RewriteThrows(p) ==> SetAsideDies(p)
  {
  }

  /** The roll-back, from a write whose new file is in place: `m` is what the failed sync left. */
  lemma RollBackKeepsAnySound(m: Images, previous: Option<Content>, p: WritePlan, allowed: set<Table>)
    requires AnySound(m, allowed) && AllSound(RollBack(m, previous, p).images, allowed)
    requires FateOf(p.sync) == Threw && !LosesBackup(p) && !SetsAsideUnsynced(p)
    requires p.sync == ThrowsLate ==> |m| == 1
    requires previous.Some? ==> Visible(m).bak == previous && Fine(previous, allowed)
    requires previous.None? ==> [] in allowed && forall i :: 0 <= i < |m| ==> m[i].bak.None?
    ensures AnySound(RollBack(m, previous, p).images, allowed)
  {
    hide AnySound, Linked, Survive, Sound;
    var u, r := Undo(m, previous, p), RollBack(m, previous, p);
    if u.fate == Died || !TookEffect(p.syncAgain) {
      UndoKeepsAnySound(m, previous, p, allowed);
    } else {
      assert r.images[0] == Visible(u.images);
      OneImage(Visible(u.images), allowed);
    }
    var s := SyncDir(u.images, p.syncAgain);
    if u.fate != Died && s.fate == Threw { AddHarmless(s.images, Marked(Visible(s.images)), p.markFailed, allowed); }
  }

  lemma UndoKeepsAnySound(m: Images, previous: Option<Content>, p: WritePlan, allowed: set<Table>)
    requires AnySound(m, allowed)
    requires FateOf(p.sync) == Threw && !LosesBackup(p) && !SetsAsideUnsynced(p)
    requires p.sync == ThrowsLate ==> |m| == 1
    requires previous.Some? ==> Visible(m).bak == previous && Fine(previous, allowed)
    requires previous.None? ==> [] in allowed && forall i :: 0 <= i < |m| ==> m[i].bak.None?
    requires Undo(m, previous, p).fate == Died || !TookEffect(p.syncAgain)
    ensures AnySound(Undo(m, previous, p).images, allowed)
  {
    hide AnySound, Linked, Survive, Sound;
    if previous.Some? {
      RestoreFate(m, previous.value, p);
      RestoreKeepsAnySound(m, previous.value, p, allowed);
    } else {
      AddRemoval(m, NoDest(Visible(m)), p.undoCreate, None, allowed);
    }
  }

  lemma ConcludeKeepsAnySound(m: Images, previous: Option<Content>, table: Table, p: WritePlan, all: set<Table>)
    requires AnySound(m, all) && Visible(m).dest == Some(Whole(table)) && table in all
    requires AllSound(Conclude(m, previous, p).images, all) && !LosesBackup(p) && !SetsAsideUnsynced(p)
    requires previous.Some? ==> Visible(m).bak == previous && Fine(previous, all)
    requires previous.None? ==> [] in all && forall i :: 0 <= i < |m| ==> m[i].bak.None?
    ensures var r := Conclude(m, previous, p);
            AnySound(r.images, all) && (r.out == Written ==> AnySound(r.images, {table}))
  {
    hide AnySound, Linked, Survive, RollBack;
    var s := SyncDir(m, p.sync);
    if TookEffect(p.sync) {
      assert s.images == [Visible(m)];
      OneImage(Visible(m), all);
      OneImage(Visible(m), {table});
    }
    if s.fate == Threw {
      RollBackKeepsAnySound(s.images, previous, p, all);
      RollBackNeverReports(s.images, previous, p);
    } else if s.fate == Ran && previous.Some? {
      AddNoBak(s.images, p.dropBak, all);
      AddNoBak(s.images, p.dropBak, {table});
    }
  }

  lemma ReplaceKeepsAnySound(m: Images, table: Table, p: WritePlan, all: set<Table>)
    requires AnySound(m, all) && AllSound(m, all) && Tidy(m) && table in all
    requires !Visible(m).failed && !(Visible(m).bak.Some? && Visible(m).dest.None?)
    requires AllSound(Replace(m, table, p).images, all) && !LosesBackup(p) && !SetsAsideUnsynced(p)
    ensures var r := Replace(m, table, p);
            AnySound(r.images, all) && (r.out == Written ==> AnySound(r.images, {table}))
  {
    hide AnySound, Linked, Survive, Conclude;
    var v := Visible(m);
    assert Sound(v, all);
    if v.dest.Some? { AddHarmless(m, BackedUp(v), p.backUp, all); }
    var b := if v.dest.Some? then Update(m, BackedUp(v), p.backUp) else Done(m, Ran);
    if b.fate == Ran {
      var w := InstalledNew(Visible(b.images), table);
      AddHarmless(b.images, w, p.install, all);
      var i := Update(b.images, w, p.install);
      if i.fate == Ran { ConcludeKeepsAnySound(i.images, v.dest, table, p, all); }
    }
  }

  /** A write that neither loses the backup nor sets the new file aside too early keeps every surviving
      state sound. */
  lemma WriteKeepsAnySound(m: Images, latched: bool, table: Table, p: WritePlan, allowed: set<Table>)
    requires AllSound(m, allowed) && AnySound(m, allowed) && Tidy(m) && !LosesBackup(p) && !SetsAsideUnsynced(p)
    ensures var r := WriteStep(m, latched, table, p);
            && AnySound(r.images, allowed + {table})
            && (r.out == Written ==> AnySound(r.images, {table}))
  {
    var all := allowed + {table};
    WriteKeepsSound(m, latched, table, p, allowed);
    AnySoundGrows(m, allowed, all);
    SoundGrows(m, allowed, all);
    hide AnySound, Linked, Survive, Sound, Replace;
    var v := Visible(m);
    AddHarmless(m, NewTmp(v, Torn), p.fill, all);
    var t := Update(m, NewTmp(v, Torn), p.fill);
    AddHarmless(t.images, NewTmp(Visible(t.images), Whole(table)), p.finish, all);
    var w := Update(t.images, NewTmp(Visible(t.images), Whole(table)), p.finish);
    if !(latched || v.failed || (v.bak.Some? && v.dest.None?)) && !(v.dest.Some? && FateOf(p.readOld) != Ran) && t.fate == Ran && w.fate == Ran {
      TmpKeepsSound(m, NewTmp(v, Torn), p.fill, all);
      TmpKeepsSound(t.images, NewTmp(Visible(t.images), Whole(table)), p.finish, all);
      ReplaceKeepsAnySound(w.images, table, p, all);
    }
  }

  lemma TmpKeepsSound(m: Images, after: Dir, f: Fault, allowed: set<Table>)
    requires AllSound(m, allowed) && Tidy(m) && Follows(Visible(m), after) && after.touched == {TmpName}
    ensures var t := Update(m, after, f).images; AllSound(t, allowed) && Tidy(t)
  {
  }

  lemma AnySoundGrows(m: Images, allowed: set<Table>, more: set<Table>)
    requires AnySound(m, allowed) && allowed <= more
    ensures AnySound(m, more)
  {
    forall keep: set<nat>
      ensures Sound(Survive(m, keep), more)
    {
      assert Sound(Survive(m, keep), allowed);
    }
  }

  /** A roll-back that does not lose the backup leaves the file or the backup. */
  lemma RestoreLeavesOne(m: Images, previous: Content, p: WritePlan)
    requires Visible(m).bak.Some? && FateOf(p.sync) == Threw && !LosesBackup(p)
    ensures var v := Visible(Restore(m, previous, p).images); v.dest.Some? || v.bak.Some?
  {
    hide Linked, Rewrite, SetAside;
    var b := Update(m, RestoredBak(Visible(m)), p.restore).images;
    RewriteFate(b, previous, p);
    RewriteShows(b, previous, p);
    SetAsideShows(Rewrite(b, previous, p).images, p);
  }

  lemma RewriteShows(m: Images, c: Content, p: WritePlan)
    ensures var v := Visible(Rewrite(m, c, p).images); v.bak == Visible(m).bak && (Visible(m).dest.Some? ==> v.dest.Some?)
  {
  }

  lemma SetAsideShows(m: Images, p: WritePlan)
    ensures var v := Visible(SetAside(m, p).images); v.bak == Visible(m).bak && (!RemovesNew(p) ==> v.dest == Visible(m).dest)
  {
  }

  lemma ConcludeKeepsTidy(m: Images, previous: Option<Content>, p: WritePlan)
    requires Visible(m).dest.Some? && !LosesBackup(p)
    requires if previous.Some? then Visible(m).bak.Some? else forall i :: 0 <= i < |m| ==> m[i].bak.None?
    ensures Tidy(Conclude(m, previous, p).images)
  {
    hide Linked, RollBack;
    var s := SyncDir(m, p.sync);
    if s.fate == Threw { RollBackKeepsTidy(s.images, previous, p); }
  }

  lemma RollBackKeepsTidy(m: Images, previous: Option<Content>, p: WritePlan)
    requires FateOf(p.sync) == Threw && !LosesBackup(p)
    requires if previous.Some? then Visible(m).bak.Some? else forall i :: 0 <= i < |m| ==> m[i].bak.None?
    ensures Tidy(RollBack(m, previous, p).images)
  {
    hide Linked, Restore;
    if previous.Some? { RestoreLeavesOne(m, previous.value, p); }
  }

  lemma WriteKeepsTidy(m: Images, latched: bool, table: Table, p: WritePlan)
    requires Tidy(m) && !LosesBackup(p)
    ensures Tidy(WriteStep(m, latched, table, p).images)
  {
    hide Linked, Conclude;
    var v := Visible(m);
    var t := Update(m, NewTmp(v, Torn), p.fill);
    var w := Update(t.images, NewTmp(Visible(t.images), Whole(table)), p.finish);
    if !(latched || v.failed || (v.bak.Some? && v.dest.None?)) && t.fate == Ran && w.fate == Ran {
      var u := Visible(w.images);
      var b := if u.dest.Some? then Update(w.images, BackedUp(u), p.backUp) else Done(w.images, Ran);
      if b.fate == Ran {
        var i := Update(b.images, InstalledNew(Visible(b.images), table), p.install);
        if i.fate == Ran { ConcludeKeepsTidy(i.images, u.dest, p); }
      }
    }
  }

  // ------------------------------------------------------------------ whole runs

  /** `acked` is the last table a write reported as written, `attempts` those of later writes that did not. */
  datatype System = System(images: Images, latched: bool, acked: Table, attempts: set<Table>)

  /** A power loss keeps the updates since the last sync up to some point, or any of them. */
  datatype Event = Read(r: ReadPlan) | Write(table: Table, w: WritePlan) | Restart | LosePower(upTo: nat) | LoseAny(keep: set<nat>)

  const Start := System([EmptyDir], false, [], {})

  function Step(s: System, e: Event): (t: System)
  {
    match e
    case Read(p) =>
      var r := ReadStep(s.images, s.latched, p);
      s.(images := r.images, latched := r.latched && r.out != ReadDied)
    case Write(table, p) =>
      var r := WriteStep(s.images, s.latched, table, p);
      if r.out == Written then System(r.images, false, table, {})
      else s.(images := r.images, latched := r.latched && r.out != WriteDied, attempts := s.attempts + {table})
    case Restart => s.(latched := false)
    case LosePower(upTo) => if upTo < |s.images| then s.(images := [s.images[upTo]], latched := false) else s
    case LoseAny(keep) => s.(images := [Survive(s.images, keep)], latched := false)
  }

  function Run(s: System, events: seq<Event>): (t: System)
    decreases |events|
  {
    if events == [] then s else Run(Step(s, events[0]), events[1..])
  }

  /** What recovery may give: the last acknowledged table, or one of a later write. */
  function Answers(s: System): set<Table> { {s.acked} + s.attempts }

  predicate InOrder(events: seq<Event>) { forall i :: 0 <= i < |events| ==> !events[i].LoseAny? }

  predicate SomeWriteLosesBackup(events: seq<Event>) {
    exists i :: 0 <= i < |events| && events[i].Write? && LosesBackup(events[i].w)
  }

  lemma {:induction false} RunKeepsSound(s: System, events: seq<Event>, extra: set<Table>)
    requires AllSound(s.images, Answers(s) + extra) && InOrder(events) && (SomeWriteLosesBackup(events) ==> [] in extra)
    ensures var t := Run(s, events); AllSound(t.images, Answers(t) + extra)
    decreases |events|
  {
    if events != [] {
      hide AllSound;
      var e, rest := events[0], events[1..];
      assert forall i :: 0 <= i < |rest| ==> rest[i] == events[i + 1];
      StepKeepsSound(s, e, extra);
      RunKeepsSound(Step(s, e), rest, extra);
    }
  }

  lemma StepKeepsSound(s: System, e: Event, extra: set<Table>)
    requires AllSound(s.images, Answers(s) + extra) && !e.LoseAny? && (e.Write? && LosesBackup(e.w) ==> [] in extra)
    ensures var t := Step(s, e); AllSound(t.images, Answers(t) + extra)
  {
    hide ReadStep, WriteStep;
    match e {
    case Read(p) => ReadKeepsSound(s.images, s.latched, p, Answers(s) + extra);
    case Write(table, p) =>
      WriteKeepsSound(s.images, s.latched, table, p, Answers(s) + extra);
      assert Answers(s) + extra + {table} == {s.acked} + (s.attempts + {table}) + extra;
    case _ =>
    }
  }

  /** If updates reach the disk in order: after any run of reads, writes, restarts and power losses, with any
      faults, a read that succeeds gives the last table whose write was reported as done, or that of a later
      unfinished write, never a mixed one; and an empty one besides only if some write lost its backup. So
      does a fresh process after a power loss right then. */
  lemma RecoveryIsExact(events: seq<Event>, p: ReadPlan)
    requires InOrder(events)
    ensures var s := Run(Start, events);
            var allowed := Answers(s) + if SomeWriteLosesBackup(events) then {[]} else {};
            && (var r := ReadStep(s.images, s.latched, p); r.out.Loaded? ==> r.out.table in allowed)
            && forall i :: 0 <= i < |s.images| && Reads(s.images[i]).Some? ==> Reads(s.images[i]).value in allowed
  {
    var extra: set<Table> := if SomeWriteLosesBackup(events) then {[]} else {};
    assert AllSound(Start.images, Answers(Start) + extra);
    RunKeepsSound(Start, events, extra);
    var s := Run(Start, events);
    ReadKeepsSound(s.images, s.latched, p, Answers(s) + extra);
    forall i | 0 <= i < |s.images| && Reads(s.images[i]).Some?
      ensures Reads(s.images[i]).value in Answers(s) + extra
    {
      SoundSays(s.images[i], Answers(s) + extra);
    }
  }

  predicate CarefulStep(s: System, e: Event) {
    match e
    case Read(p) => !DropsEarly(s.images, s.latched, p)
    case Write(_, p) => !LosesBackup(p) && !SetsAsideUnsynced(p)
    case _ => true
  }

  /** No read drops a backup early, and no write loses it or sets the new file aside early. */
  predicate Careful(s: System, events: seq<Event>)
    decreases |events|
  {
    events == [] || (CarefulStep(s, events[0]) && Careful(Step(s, events[0]), events[1..]))
  }

  ghost predicate Safe(s: System) { AllSound(s.images, Answers(s)) && AnySound(s.images, Answers(s)) && Tidy(s.images) }

  lemma StepKeepsSafe(s: System, e: Event)
    requires Safe(s) && CarefulStep(s, e)
    ensures Safe(Step(s, e))
  {
    hide ReadStep, WriteStep, DropsEarly;
    match e {
    case Read(p) =>
      ReadKeepsSound(s.images, s.latched, p, Answers(s));
      ReadKeepsAnySound(s.images, s.latched, p, Answers(s));
    case Write(table, p) =>
      WriteKeepsSound(s.images, s.latched, table, p, Answers(s));
      WriteKeepsAnySound(s.images, s.latched, table, p, Answers(s));
      WriteKeepsTidy(s.images, s.latched, table, p);
      assert Answers(s) + {table} == {s.acked} + (s.attempts + {table});
      assert {table} + {} == {table};
    case LosePower(upTo) =>
      if upTo < |s.images| { OneImage(s.images[upTo], Answers(s)); }
    case LoseAny(keep) =>
      OneImage(Survive(s.images, keep), Answers(s));
    case Restart =>
    }
  }

  lemma {:induction false} RunKeepsSafe(s: System, events: seq<Event>)
    requires Safe(s) && Careful(s, events)
    ensures Safe(Run(s, events))
    decreases |events|
  {
    if events != [] {
      hide Safe, Step;
      StepKeepsSafe(s, events[0]);
      RunKeepsSafe(Step(s, events[0]), events[1..]);
    }
  }

  /** If a power loss may keep any of the updates since the last sync: recovery is as exact, after every run
      in which no read dropped a backup before the removal of the file was on disk, and no write lost its
      backup or set the new file aside before the backup was on disk. */
  lemma RecoveryIsExactInAnyOrder(events: seq<Event>, p: ReadPlan, keep: set<nat>)
    requires Careful(Start, events)
    ensures var s := Run(Start, events);
            && (var r := ReadStep(s.images, s.latched, p); r.out.Loaded? ==> r.out.table in Answers(s))
            && (var d := Survive(s.images, keep); Reads(d).Some? ==> Reads(d).value in Answers(s))
  {
    OneImage(EmptyDir, Answers(Start));
    assert AllSound(Start.images, Answers(Start));
    RunKeepsSafe(Start, events);
    var s := Run(Start, events);
    ReadKeepsSound(s.images, s.latched, p, Answers(s));
    SoundSays(Survive(s.images, keep), Answers(s));
  }

  // ------------------------------------------------------------------ the conditions are exact

  lemma {:induction false} MarkerStays(m: Images, i: nat)
    requires i < |m| && m[i].failed
    ensures Visible(m).failed
    decreases |m| - i
  {
    if i + 1 < |m| {
      assert FollowsAt(m, i + 1);
      MarkerStays(m, i + 1);
    }
  }

  /** From sound states without an empty table: after a read some subset of the updates recovers to an empty
      table exactly when the read dropped the backup early. */
  lemma EmptyExactlyWhenDroppedEarly(m: Images, latched: bool, p: ReadPlan, allowed: set<Table>)
    requires AllSound(m, allowed) && AnySound(m, allowed) && Tidy(m) && [] !in allowed
    ensures (exists keep: set<nat> :: Reads(Survive(ReadStep(m, latched, p).images, keep)) == Some([])) <==> DropsEarly(m, latched, p)
  {
    var r := ReadStep(m, latched, p).images;
    if DropsEarly(m, latched, p) {
      DropLeavesNothing(m, latched, p);
    } else {
      ReadKeepsAnySound(m, latched, p, allowed);
      forall keep: set<nat>
        ensures Reads(Survive(r, keep)) != Some([])
      {
        SoundSays(Survive(r, keep), allowed);
      }
    }
  }

  lemma DropLeavesNothing(m: Images, latched: bool, p: ReadPlan)
    requires DropsEarly(m, latched, p)
    ensures exists keep: set<nat> :: Reads(Survive(ReadStep(m, latched, p).images, keep)) == Some([])
  {
    hide Linked;
    var i :| 0 <= i < |m| && m[i].dest.None?;
    if m[i].failed { MarkerStays(m, i); }
    var t := RecoverTmp(m, p.dropTmp).images;
    assert |m| <= |t| <= |m| + 1 && t[i] == m[i] && Visible(t).bak.Some? && Visible(t).unrestored.None? && Visible(t).dest.Some?;
    var after := NoBak(Visible(t));
    var keep := FirstUpdates(i) + {|t|};
    KeepsAllBefore(t, i, {|t|});
    SurviveMore(t, after, keep);
    assert ReadStep(m, latched, p).images == t + [after];
    assert Reads(Replay(m[i], after)) == Some([]);
  }

  lemma {:induction false} KeepsOne(m: seq<Dir>, j: nat)
    requires 0 < j < |m|
    ensures Survive(m, {j}) == Replay(m[0], m[j])
  {
    var init := m[..|m| - 1];
    if j < |init| { KeepsOne(init, j); } else { KeepsNone(init, j); }
  }

  lemma {:induction false} KeepsNone(m: seq<Dir>, j: nat)
    requires m != [] && j >= |m|
    ensures Survive(m, {j}) == m[0]
  {
    if |m| > 1 { KeepsNone(m[..|m| - 1], j); }
  }

  /** From a clean registry: after a write some subset of the updates recovers to an empty table exactly when
      the write reached its roll-back and lost both copies there, or set the new file aside too early. */
  lemma EmptyExactlyWhenBackupMissing(before: Table, table: Table, p: WritePlan)
    requires before != [] && table != []
    ensures var images := WriteStep([Clean(before)], false, table, p).images;
            (exists keep: set<nat> :: Reads(Survive(images, keep)) == Some([])) <==> ReachesInstall(p) && (LosesBackup(p) || SetsAsideUnsynced(p))
  {
    hide Survive, WriteStep;
    var images := WriteStep([Clean(before)], false, table, p).images;
    if ReachesInstall(p) && LosesBackup(p) {
      EmptyExactlyWhenBackupLost(before, table, p);
      var i :| 0 <= i < |images| && Reads(images[i]) == Some([]);
      InOrderIsOneWay(images, i);
    } else if ReachesInstall(p) && SetsAsideUnsynced(p) {
      InstallIsReached(before, table, p);
      SetAsideLeavesGap(before, table, p);
    } else {
      if ReachesInstall(p) { AllSurvivorsSound(before, table, p); } else { EarlyStopSurvives(before, table, p); }
      forall keep: set<nat>
        ensures Reads(Survive(images, keep)) != Some([])
      {
        assert Sound(Survive(images, keep), {before, table});
        SoundSays(Survive(images, keep), {before, table});
      }
    }
  }

  lemma AllSurvivorsSound(before: Table, table: Table, p: WritePlan)
    requires !LosesBackup(p) && !SetsAsideUnsynced(p)
    ensures AnySound(WriteStep([Clean(before)], false, table, p).images, {before, table})
  {
    hide Survive, WriteStep;
    OneImage(Clean(before), {before});
    WriteKeepsAnySound([Clean(before)], false, table, p, {before});
    assert {before} + {table} == {before, table};
  }

  /** The faults of calls that were not reached do not matter. */
  lemma EarlyStopSurvives(before: Table, table: Table, p: WritePlan)
    requires !ReachesInstall(p)
    ensures AnySound(WriteStep([Clean(before)], false, table, p).images, {before, table})
  {
    var q := p.(sync := Works);
    AllSurvivorsSound(before, table, q);
    assert WriteStep([Clean(before)], false, table, p) == WriteStep([Clean(before)], false, table, q);
  }

  lemma SetAsideTakesAway(m: Images, p: WritePlan)
    requires Visible(m).dest.Some? && RemovesNew(p)
    ensures var q := SetAside(m, p);
            && |q.images| > |m| && q.images[0] == m[0] && (q.fate == Died <==> SetAsideDies(p))
            && var u := q.images[|m|]; u.dest.None? && DestName in u.touched && BakName !in u.touched && FailedName !in u.touched
  {
  }

  lemma SetAsideLeavesGap(before: Table, table: Table, p: WritePlan)
    requires SetsAsideUnsynced(p)
    ensures exists keep: set<nat> :: Reads(Survive(Conclude(Installed(before, table), Some(Whole(before)), p).images, keep)) == Some([])
  {
    hide Linked, Survive, SetAside, Rewrite;
    var m, c := Installed(before, table), Whole(before);
    RewriteFate(m, c, p);
    var w := Rewrite(m, c, p).images;
    RewriteKeepsNames(m, c, p);
    SetAsideTakesAway(w, p);
    var q, r := SetAside(w, p), Conclude(m, Some(c), p);
    assert Restore(m, c, p).images == q.images;
    assert r.images[0] == m[0] && |r.images| > |w| && r.images[|w|] == q.images[|w|];
    KeepsOne(r.images, |w|);
    assert Reads(Replay(Clean(before), r.images[|w|])) == Some([]);
  }

  lemma RewriteKeepsNames(m: Images, c: Content, p: WritePlan)
    requires Visible(m).dest.Some?
    ensures var w := Rewrite(m, c, p).images; w[0] == m[0] && Visible(w).dest.Some?
  {
  }

  /** It happens: a process dies after it installed the new file, the next one drops the backup, and a power
      loss keeps the move to the backup and its removal but not the installation. The acknowledged table is
      gone. */
  lemma EarlyDropLosesTheTable(before: Table, table: Table)
    requires before != []
    ensures var dies := AllWorks.(install := DiesLate);
            var events := [Write(before, AllWorks), Write(table, dies), Restart, Read(ReadWorks), LoseAny({3, 5})];
            var s := Run(Start, events);
            s.acked == before && ReadStep(s.images, s.latched, ReadWorks).out == Loaded([])
  {
    var a := Step(Start, Write(before, AllWorks));
    FirstWrite(before);
    var dies := AllWorks.(install := DiesLate);
    var b := Step(a, Write(table, dies));
    SecondWrite(a.images[0], before, table, dies);
    var c := Step(b, Restart);
    var e := Step(c, Read(ReadWorks));
    DropAfterCrash(c.images, a.images[0], before, table);
    var f := Step(e, LoseAny({3, 5}));
    var events := [Write(before, AllWorks), Write(table, dies), Restart, Read(ReadWorks), LoseAny({3, 5})];
    RunFive(Start, events);
  }

  const AllWorks := WritePlan(Works, Works, Works, Works, Works, Works, Works, Works, Works, Works, Works, Works, Works, Works, Works)

  const ReadWorks := ReadPlan(Works, Works, Works, Works)

  lemma RunFive(s: System, e: seq<Event>)
    requires |e| == 5
    ensures Run(s, e) == Step(Step(Step(Step(Step(s, e[0]), e[1]), e[2]), e[3]), e[4])
  {
    hide Step;
    var s1 := Step(s, e[0]);
    var s2 := Step(s1, e[1]);
    var s3 := Step(s2, e[2]);
    var s4 := Step(s3, e[3]);
    assert Run(s, e) == Run(s1, e[1..]);
    assert Run(s1, e[1..]) == Run(s2, e[2..]) by { assert e[1..][1..] == e[2..]; }
    assert Run(s2, e[2..]) == Run(s3, e[3..]) by { assert e[2..][1..] == e[3..]; }
    assert Run(s3, e[3..]) == Run(s4, e[4..]) by { assert e[3..][1..] == e[4..]; }
    assert e[4..][1..] == [];
    assert Run(s4, e[4..]) == Run(Step(s4, e[4]), []);
  }

  lemma FirstWrite(before: Table)
    ensures var s := Step(Start, Write(before, AllWorks));
            s.images == [s.images[0]] && s.acked == before && !s.latched && s.attempts == {}
            && Holds(s.images[0], before) && s.images[0].bak.None? && s.images[0].tmp.None?
  {
  }

  lemma SecondWrite(d: Dir, before: Table, table: Table, p: WritePlan)
    requires Holds(d, before) && d.bak.None? && p == AllWorks.(install := DiesLate)
    ensures var r := WriteStep([d], false, table, p);
            r.out == WriteDied && r.images == CrashedInstall(d, table)
  {
    var t, w := NewTmp(d, Torn), NewTmp(d, Whole(table));
    assert [d] + [t] + [w] + [BackedUp(w)] + [InstalledNew(BackedUp(w), table)] == CrashedInstall(d, table);
  }

  /** The states of a write up to its installed file. */
  function CrashedInstall(d: Dir, table: Table): (m: Images)
    requires d.dest.Some? && !d.failed
  {
    var t, w := NewTmp(d, Torn), NewTmp(d, Whole(table));
    LinkedPush([d], t);
    LinkedPush([d] + [t], w);
    LinkedPush([d] + [t] + [w], BackedUp(w));
    LinkedPush([d] + [t] + [w] + [BackedUp(w)], InstalledNew(BackedUp(w), table));
    [d] + [t] + [w] + [BackedUp(w)] + [InstalledNew(BackedUp(w), table)]
  }

  lemma DropAfterCrash(m: Images, d: Dir, before: Table, table: Table)
    requires Holds(d, before) && d.bak.None? && m == CrashedInstall(d, table)
    ensures var r := ReadStep(m, false, ReadWorks);
            r.out == Loaded(table) && var e := Survive(r.images, {3, 5}); e.dest.None? && e.bak.None? && !e.failed && e.unrestored.None?
  {
    var t, w := NewTmp(d, Torn), NewTmp(d, Whole(table));
    var u, v, keep := BackedUp(w), InstalledNew(BackedUp(w), table), {3, 5};
    SurviveMore([d], t, keep);
    SurviveMore([d] + [t], w, keep);
    SurviveMore([d] + [t] + [w], u, keep);
    SurviveMore([d] + [t] + [w] + [u], v, keep);
    SurviveMore(m, NoBak(v), keep);
    assert ReadStep(m, false, ReadWorks).images == m + [NoBak(v)];
  }

  // ------------------------------------------------------------------ when nothing fails

  /** A write may go ahead. */
  predicate IsWritable(m: Images, latched: bool) {
    !latched && !Visible(m).failed && !(Visible(m).bak.Some? && Visible(m).dest.None?)
  }

  /** A write that no fault disturbs stores its table, durably, and a read after it gives it back. */
  lemma UndisturbedWriteStores(m: Images, table: Table)
    requires IsWritable(m, false)
    ensures var s := WriteStep(m, false, table, AllWorks);
            && s.out == Written && IsWritable(s.images, s.latched)
            && (forall i :: 0 <= i < |s.images| ==> s.images[i].dest == Some(Whole(table))) && Reads(Visible(s.images)) == Some(table)
  {
  }

  /** A write that returns has put its table into every state that a power loss may leave, whatever was there. */
  lemma WrittenIsStored(m: Images, latched: bool, table: Table, p: WritePlan)
    requires WriteStep(m, latched, table, p).out == Written
    ensures var s := WriteStep(m, latched, table, p);
            !s.latched && forall i :: 0 <= i < |s.images| ==> s.images[i].dest == Some(Whole(table))
  {
    hide Linked, Replace;
    var t := Update(m, NewTmp(Visible(m), Torn), p.fill);
    ReplacedIsStored(Update(t.images, NewTmp(Visible(t.images), Whole(table)), p.finish).images, table, p);
  }

  lemma ReplacedIsStored(m: Images, table: Table, p: WritePlan)
    requires Replace(m, table, p).out == Written
    ensures var s := Replace(m, table, p); !s.latched && forall i :: 0 <= i < |s.images| ==> s.images[i].dest == Some(Whole(table))
  {
    hide Linked, Conclude;
    var v := Visible(m);
    var b := if v.dest.Some? then Update(m, BackedUp(v), p.backUp) else Done(m, Ran);
    ConcludedIsStored(Update(b.images, InstalledNew(Visible(b.images), table), p.install).images, v.dest, p);
  }

  lemma ConcludedIsStored(m: Images, previous: Option<Content>, p: WritePlan)
    requires Conclude(m, previous, p).out == Written
    ensures var s := Conclude(m, previous, p); !s.latched && forall i :: 0 <= i < |s.images| ==> s.images[i].dest == Visible(m).dest
  {
    hide RollBack, Linked;
    RollBackNeverReports(SyncDir(m, p.sync).images, previous, p);
  }

  /** A read that no fault disturbs gives what the directory says, or the error, and a write may follow. */
  lemma UndisturbedReadLoads(m: Images)
    ensures var r := ReadStep(m, false, ReadWorks);
            && r.out == (if Reads(Visible(m)).Some? then Loaded(Reads(Visible(m)).value) else Corrupt)
            && (r.out.Loaded? ==> IsWritable(r.images, r.latched) && Reads(Visible(r.images)) == Some(r.out.table))
  {
    hide Linked;
    var t := RecoverTmp(m, Works);
    assert t.fate == Ran && Visible(t.images).(tmp := None, touched := {}) == Visible(m).(tmp := None, touched := {});
    hide RecoverTmp;
    assert Reads(Visible(t.images)) == Reads(Visible(m));
    UndisturbedRecovery(t.images);
  }

  lemma UndisturbedRecovery(m: Images)
    ensures var b := RecoverBackup(m, ReadWorks);
            var v := Visible(m);
            && (b.fate == Threw <==> v.unrestored.Some? && v.bak.Some?) && b.fate != Died
            && (b.fate == Ran ==>
                  && Visible(b.images).bak.None? && Visible(b.images).failed == v.failed
                  && Visible(b.images).dest == if v.dest.Some? then v.dest else v.bak)
  {
  }

  // ------------------------------------------------------------------ what a failure is answered with

  /** A read succeeds unless the registry is closed or two copies contend, the backup cannot be put back, the file
      cannot be read or is torn, or the process dies; leftovers that cannot be removed hinder nobody. The latch is
      set exactly with the error. */
  lemma ReadAnswersExactly(m: Images, latched: bool, p: ReadPlan)
    ensures var v := Visible(m);
            var r := ReadStep(m, latched, p);
            var c := if v.dest.Some? then v.dest else v.bak;
            var closed := latched || v.failed || (v.unrestored.Some? && v.bak.Some?);
            && (r.latched <==> r.out == Corrupt)
            && (r.out.Loaded? <==>
                  && !closed && (v.tmp.Some? ==> FateOf(p.dropTmp) != Died)
                  && (v.bak.Some? ==> if v.dest.None? then p.restore == Works else FateOf(p.dropBak) != Died)
                  && (c.Some? ==> p.read == Works && c.value != Torn))
            && (r.out.Loaded? ==> r.out.table == if c.None? then [] else c.value.table)
            && (r.out == Corrupt ==> closed || FateOf(p.restore) == Threw || FateOf(p.read) == Threw || c == Some(Torn))
            && (r.out == ReadDied ==> !latched && !v.failed && Died in {FateOf(p.dropTmp), FateOf(p.restore), FateOf(p.dropBak), FateOf(p.read)})
            && (latched || v.failed ==> r == Store(m, true, Corrupt))
  {
    hide Linked, RecoverTmp, RecoverBackup;
    TmpAnswers(m, p.dropTmp);
    BackupAnswers(RecoverTmp(m, p.dropTmp).images, p);
  }

  lemma TmpAnswers(m: Images, f: Fault)
    ensures var t := RecoverTmp(m, f);
            && t.fate == (if Visible(m).tmp.Some? && FateOf(f) == Died then Died else Ran)
            && Visible(t.images).(tmp := None, touched := {}) == Visible(m).(tmp := None, touched := {})
  {
  }

  lemma BackupAnswers(m: Images, p: ReadPlan)
    ensures var v := Visible(m);
            var b := RecoverBackup(m, p);
            && b.fate == (if v.bak.None? then Ran
                          else if v.unrestored.Some? then Threw
                          else if v.dest.None? then FateOf(p.restore)
                          else if FateOf(p.dropBak) == Died then Died else Ran)
            && (b.fate == Ran ==> Visible(b.images).dest == if v.dest.Some? then v.dest else v.bak)
  {
  }

  /** The roll-back lost both copies of the old file: the backup could not be put back, nor the copy in memory. */
  predicate LosesBoth(p: WritePlan) {
    FateOf(p.restore) == Threw && (FateOf(p.rewrite) == Threw || (p.rewrite == Works && FateOf(p.rewriteEnd) == Threw))
  }

  predicate NobodyDies(p: WritePlan) { forall f :: f in Calls(p) ==> FateOf(f) != Died }

  /** Everything up to the installed file works. */
  predicate Installs(p: WritePlan, over: bool) {
    (over ==> p.readOld == Works && p.backUp == Works) && p.fill == Works && p.finish == Works && p.install == Works
  }

  /** A write returns normally exactly when every call it needs works; failing to drop the backup hinders nobody. If
      the process lives it closes the registry exactly when the old file could not be put back, or the directory not
      be synced again; every other failure is an error that leaves it open. */
  lemma WriteAnswersExactly(m: Images, latched: bool, table: Table, p: WritePlan)
    ensures var v := Visible(m);
            var r := WriteStep(m, latched, table, p);
            var over := v.dest.Some?;
            var closed := latched || v.failed || (v.bak.Some? && !over);
            && (closed ==> r == Store(m, true, Refused))
            && (r.out == Written <==> !closed && Installs(p, over) && p.sync == Works && (over ==> FateOf(p.dropBak) != Died))
            && (NobodyDies(p) ==>
                  && r.out != WriteDied && (r.latched <==> r.out == Refused)
                  && (r.out == Refused <==>
                        closed || (Installs(p, over) && FateOf(p.sync) == Threw && ((over && LosesBoth(p)) || FateOf(p.syncAgain) == Threw))))
  {
    var v := Visible(m);
    if !latched && !v.failed && !(v.bak.Some? && v.dest.None?) {
      var t := Update(m, NewTmp(v, Torn), p.fill);
      var w := Update(t.images, NewTmp(Visible(t.images), Whole(table)), p.finish);
      Deaths(p);
      hide Linked, Replace, NobodyDies;
      if t.fate == Ran && w.fate == Ran { ReplaceAnswers(w.images, table, p); }
    }
  }

  lemma Deaths(p: WritePlan)
    ensures NobodyDies(p) ==>
              Died !in {FateOf(p.readOld), FateOf(p.fill), FateOf(p.finish), FateOf(p.backUp), FateOf(p.install), FateOf(p.sync), FateOf(p.dropBak),
                        FateOf(p.undoCreate), FateOf(p.restore), FateOf(p.rewrite), FateOf(p.rewriteEnd), FateOf(p.quarantine), FateOf(p.removeNew),
                        FateOf(p.syncAgain), FateOf(p.markFailed)}
  {
    var c := Calls(p);
    assert c[0] == p.readOld && c[1] == p.fill && c[2] == p.finish && c[3] == p.backUp && c[4] == p.install && c[5] == p.sync;
    assert c[6] == p.dropBak && c[7] == p.undoCreate && c[8] == p.restore && c[9] == p.rewrite && c[10] == p.rewriteEnd;
    assert c[11] == p.quarantine && c[12] == p.removeNew && c[13] == p.syncAgain && c[14] == p.markFailed;
  }

  lemma ReplaceAnswers(m: Images, table: Table, p: WritePlan)
    ensures var over := Visible(m).dest.Some?;
            var r := Replace(m, table, p);
            var ready := (over ==> p.backUp == Works) && p.install == Works;
            && (r.out == Written <==> ready && p.sync == Works && (over ==> FateOf(p.dropBak) != Died))
            && (NobodyDies(p) ==>
                  && r.out != WriteDied && (r.latched <==> r.out == Refused)
                  && (r.out == Refused <==> ready && FateOf(p.sync) == Threw && ((over && LosesBoth(p)) || FateOf(p.syncAgain) == Threw)))
  {
    Deaths(p);
    hide Linked, NobodyDies, RollBack, LosesBoth;
    var v := Visible(m);
    var b := if v.dest.Some? then Update(m, BackedUp(v), p.backUp) else Done(m, Ran);
    var i := Update(b.images, InstalledNew(Visible(b.images), table), p.install);
    RollBackAnswers(SyncDir(i.images, p.sync).images, v.dest, p);
  }

  lemma RollBackAnswers(m: Images, previous: Option<Content>, p: WritePlan)
    ensures var r := RollBack(m, previous, p);
            && r.out != Written
            && (NobodyDies(p) && (previous.Some? ==> Visible(m).bak.Some?) ==>
                  && r.out != WriteDied && (r.latched <==> r.out == Refused)
                  && (r.out == Refused <==> (previous.Some? && LosesBoth(p)) || FateOf(p.syncAgain) == Threw))
  {
    Deaths(p);
    hide Linked, NobodyDies;
  }

  // ------------------------------------------------------------------ failing closed

  predicate NoPowerLoss(events: seq<Event>) { forall i :: 0 <= i < |events| ==> !events[i].LosePower? && !events[i].LoseAny? }

  /** Closed for good: the marker is in every state a power loss may leave. Closed until then: it is visible. */
  predicate Closed(s: System, events: seq<Event>) {
    (forall i :: 0 <= i < |s.images| ==> s.images[i].failed) || (Visible(s.images).failed && NoPowerLoss(events))
  }

  /** Once the marker file is there, no run of any events reads or writes a table again, or changes the
      directory, through restarts too; and if the marker is on disk, through power losses as well. */
  lemma {:induction false} FailClosedStays(s: System, events: seq<Event>, r: ReadPlan, table: Table, w: WritePlan)
    requires Closed(s, events)
    ensures var t := Run(s, events);
            && ReadStep(t.images, t.latched, r).out == Corrupt && WriteStep(t.images, t.latched, table, w).out == Refused
            && t.acked == s.acked && (NoPowerLoss(events) ==> t.images == s.images)
    decreases |events|
  {
    if events != [] {
      var e, rest := events[0], events[1..];
      assert forall i :: 0 <= i < |rest| ==> rest[i] == events[i + 1];
      if e.LoseAny? { MarkerSurvives(s.images, e.keep); }
      var t := Step(s, e);
      assert Closed(t, rest);
      hide Step;
      FailClosedStays(t, rest, r, table, w);
    }
  }

  lemma {:induction false} MarkerSurvives(m: seq<Dir>, keep: set<nat>)
    requires m != []
    ensures (forall i :: 0 <= i < |m| ==> m[i].failed) ==> Survive(m, keep).failed
  {
    if |m| > 1 { MarkerSurvives(m[..|m| - 1], keep); }
  }

  // ------------------------------------------------------------------ the registry object

  /** The module state of the source: the data directory and the fail-closed latch. Each method runs the
      calls of the source in order and follows its throws. */
  class DeviceRegistry {
    var images: Images
    var latched: bool

    constructor ()
      ensures images == [EmptyDir] && !latched
    {
      images := [EmptyDir];
      latched := false;
    }

    method Put(after: Dir, f: Fault) returns (fate: Fate)
      requires Follows(Visible(images), after)
      modifies this`images
      ensures Done(images, fate) == Update(old(images), after, f)
    {
      LinkedPush(images, after);
      if TookEffect(f) { images := images + [after]; }
      fate := FateOf(f);
    }

    method FsyncDirectory(f: Fault) returns (fate: Fate)
      modifies this`images
      ensures Done(images, fate) == SyncDir(old(images), f)
    {
      if TookEffect(f) { images := [Visible(images)]; }
      fate := FateOf(f);
    }

    method RecoverBackupFile(p: ReadPlan) returns (fate: Fate)
      modifies this`images
      ensures Done(images, fate) == RecoverBackup(old(images), p)
    {
      var v := Visible(images);
      if v.unrestored.Some? && v.bak.Some? { return Threw; }
      if v.bak.None? { return Ran; }
      if v.dest.None? {
        fate := Put(RestoredBak(v), p.restore);
      } else {
        fate := Put(NoBak(v), p.dropBak);
        if fate == Threw { fate := Ran; }
      }
    }

    method ReadRegistry(p: ReadPlan) returns (r: ReadOutcome)
      modifies this
      ensures var s := ReadStep(old(images), old(latched), p);
              images == s.images && r == s.out && (r != ReadDied ==> latched == s.latched)
    {
      if latched || Visible(images).failed {
        latched := true;
        return Corrupt;
      }
      if Visible(images).tmp.Some? {
        var fate := Put(NoTmp(Visible(images)), p.dropTmp);
        if fate == Died { return ReadDied; }
      }
      var fate := RecoverBackupFile(p);
      if fate == Died { return ReadDied; }
      if fate == Threw {
        latched := true;
        return Corrupt;
      }
      match Visible(images).dest {
        case None =>
          latched := false;
          return Loaded([]);
        case Some(c) =>
          if FateOf(p.read) == Died { return ReadDied; }
          if FateOf(p.read) == Threw || c == Torn {
            latched := true;
            return Corrupt;
          }
          latched := false;
          return Loaded(c.table);
      }
    }

    method SetNewAside(p: WritePlan) returns (fate: Fate)
      modifies this`images
      ensures Done(images, fate) == SetAside(old(images), p)
    {
      var v := Visible(images);
      if v.dest.None? { return Ran; }
      fate := Put(Quarantined(v), p.quarantine);
      if fate != Threw { return; }
      fate := Put(NoDest(Visible(images)), p.removeNew);
      if fate == Threw { fate := Ran; }
    }

    method RestoreOverwritten(previous: Content, p: WritePlan) returns (fate: Fate)
      modifies this
      ensures Done(images, fate) == Restore(old(images), previous, p)
      ensures latched == (old(latched) || fate == Threw)
    {
      var v := Visible(images);
      if v.bak.Some? {
        fate := Put(RestoredBak(v), p.restore);
        if fate != Threw { return; }
      }
      fate := Put(NewDest(Visible(images), Torn), p.rewrite);
      if fate == Ran {
        fate := Put(NewDest(Visible(images), previous), p.rewriteEnd);
      }
      if fate != Threw { return; }
      fate := SetNewAside(p);
      if fate == Died { return; }
      latched := true;
      fate := Threw;
    }

    method UndoWrite(previous: Option<Content>, p: WritePlan) returns (r: WriteOutcome)
      requires !latched
      modifies this
      ensures var s := RollBack(old(images), previous, p);
              images == s.images && r == s.out && (r != WriteDied ==> latched == s.latched)
    {
      var undone;
      if previous.Some? {
        undone := RestoreOverwritten(previous.value, p);
      } else {
        undone := Put(NoDest(Visible(images)), p.undoCreate);
        if undone == Threw { undone := Ran; }
      }
      if undone == Died { return WriteDied; }
      var fate := FsyncDirectory(p.syncAgain);
      if fate == Died { return WriteDied; }
      if fate == Threw {
        latched := true;
        fate := Put(Marked(Visible(images)), p.markFailed);
        return if fate == Died then WriteDied else Refused;
      }
      return if undone == Threw then Refused else Failed;
    }

    method WriteAtomic(table: Table, p: WritePlan) returns (r: WriteOutcome)
      modifies this
      ensures var s := WriteStep(old(images), old(latched), table, p);
              images == s.images && r == s.out && (r != WriteDied ==> latched == s.latched)
    {
      var v := Visible(images);
      if latched || v.failed || (v.bak.Some? && v.dest.None?) {
        latched := true;
        return Refused;
      }
      if v.dest.Some? && FateOf(p.readOld) != Ran {
        return if FateOf(p.readOld) == Died then WriteDied else Failed;
      }
      var fate := Put(NewTmp(v, Torn), p.fill);
      if fate != Ran { return if fate == Died then WriteDied else Failed; }
      fate := Put(NewTmp(Visible(images), Whole(table)), p.finish);
      if fate != Ran { return if fate == Died then WriteDied else Failed; }
      var previous := Visible(images).dest;
      if previous.Some? {
        fate := Put(BackedUp(Visible(images)), p.backUp);
        if fate != Ran { return if fate == Died then WriteDied else Failed; }
      }
      fate := Put(InstalledNew(Visible(images), table), p.install);
      if fate != Ran { return if fate == Died then WriteDied else Failed; }
      fate := FsyncDirectory(p.sync);
      if fate == Died { return WriteDied; }
      if fate == Threw {
        r := UndoWrite(previous, p);
        return;
      }
      if previous.Some? {
        fate := Put(NoBak(Visible(images)), p.dropBak);
        if fate == Died { return WriteDied; }
      }
      return Written;
    }
  }

}
