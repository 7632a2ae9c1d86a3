/** The durable dedup store of the webhook wake service (dedup.ts): one JSON file replaced by rename,
    and a `.unacked` marker that says whether the last rename is known to have reached the disk. */
module Dedup {
  import opened Common

  type Key = string

  datatype Entry = Entry(success: bool, storedAt: int, expiresAt: int)

  type File = map<Key, Entry>

  const EmptyFile: File := map[]

  // ------------------------------------------------------------------ the directory

  /** One directory with the store file and the marker. Each list starts with the entry that is on the
      disk and ends with the visible one; a power loss may leave any element of each list. */
  datatype Dir = Dir(data: Files, marker: Flags)

  type Files = s: seq<File> | s != [] witness [EmptyFile]

  type Flags = s: seq<bool> | s != [] witness [false]

  /** A missing store file reads as an empty one. */
  function VisibleFile(d: Dir): File
  {
    Last(d.data)
  }

  function VisibleMarker(d: Dir): bool
  {
    Last(d.marker)
  }

  function SetMarker(d: Dir, present: bool): (r: Dir)
  {
    d.(marker := d.marker + [present])
  }

  function RenameInto(d: Dir, f: File): (r: Dir)
  {
    d.(data := d.data + [f])
  }

  function SyncDir(d: Dir): (r: Dir)
  {
    Dir([VisibleFile(d)], [VisibleMarker(d)])
  }

  function PowerLoss(d: Dir, i: nat, j: nat): (r: Dir)
    requires i < |d.data| && j < |d.marker|
  {
    Dir([d.data[i]], [d.marker[j]])
  }

  // ------------------------------------------------------------------ faults

  /** One fault for each call an operation may make. `prepare` stands for the temporary file: its
      creation, its writes and its own fsync. */
  datatype Plan = Plan(
    readSync: Fault, readRemark: Fault, readClear: Fault, read: Fault, prepare: Fault,
    mark: Fault, markSync: Fault, rename: Fault, sync: Fault, remark: Fault, clear: Fault)

  // ------------------------------------------------------------------ what each operation does

  datatype Done = Done(dir: Dir, fate: Fate)

  function Call(before: Dir, after: Dir, f: Fault): (r: Done)
  {
    Done(if TookEffect(f) then after else before, FateOf(f))
  }

  /** fsyncParentOrThrow: a failed directory fsync leaves the marker in place. */
  function FsyncParent(d: Dir, sync: Fault, remark: Fault): (r: Done)
  {
    var s := Call(d, SyncDir(d), sync);
    if s.fate != Threw then s else
    var m := Call(s.dir, SetMarker(s.dir, true), remark);
    if m.fate == Died then m else Done(m.dir, Threw)
  }

  /** requireDurable: nothing is read past an unacknowledged rename. */
  function RequireDurable(d: Dir, p: Plan): (r: Done)
  {
    if !VisibleMarker(d) then Done(d, Ran) else
    Acknowledge(d, p.readSync, p.readRemark, p.readClear)
  }

  function ReadFile(d: Dir, p: Plan): (r: Done)
  {
    var q := RequireDurable(d, p);
    if q.fate != Ran then q else Call(q.dir, q.dir, p.read)
  }

  /** The end of writeFile and of requireDurable: directory fsync, then the marker goes. */
  function Acknowledge(d: Dir, sync: Fault, remark: Fault, clear: Fault): (r: Done)
  {
    var s := FsyncParent(d, sync, remark);
    if s.fate != Ran then s else Call(s.dir, SetMarker(s.dir, false), clear)
  }

  /** persistUnacked: the marker file, made durable. */
  function PersistUnacked(d: Dir, mark: Fault, markSync: Fault): (r: Done)
  {
    var m := Call(d, SetMarker(d, true), mark);
    if m.fate != Ran then m else Call(m.dir, SyncDir(m.dir), markSync)
  }

  /** The rename and what makes it durable. */
  function Publish(d: Dir, f: File, p: Plan): (r: Done)
  {
    var r := Call(d, RenameInto(d, f), p.rename);
    if r.fate != Ran then r else Acknowledge(r.dir, p.sync, p.remark, p.clear)
  }

  /** writeFile: temporary file, durable marker, then rename, directory fsync, and the marker goes. */
  function WriteFile(d: Dir, f: File, p: Plan): (r: Done)
  {
    if FateOf(p.prepare) != Ran then Done(d, FateOf(p.prepare)) else
    var m := PersistUnacked(d, p.mark, p.markSync);
    if m.fate != Ran then m else Publish(m.dir, f, p)
  }

  /** The records that have not expired. */
  function Live(f: File, now: int): File {
    map k | k in f && f[k].expiresAt > now :: f[k]
  }

  /** Read-time expiry followed by the lookup. */
  function Lookup(f: File, key: Key, now: int): Option<Entry> {
    if key in f && f[key].expiresAt > now then Some(f[key]) else None
  }

  predicate WouldExceed(f: File, reserved: set<Key>, key: Key, maxRecords: nat) {
    key !in f && key !in reserved && |f| + |reserved| >= maxRecords
  }

  // ------------------------------------------------------------------ the marker invariant

  /** Without a visible marker the visible file is the durable one. */
  ghost predicate Acknowledged(d: Dir) {
    !VisibleMarker(d) ==> |d.data| == 1
  }

  /** Everything a power loss can leave was possible before, or is the new file; and what is visible is
      what was visible, or the new file. */
  ghost predicate Evolves(before: Dir, after: Dir, f: File) {
    && (forall i :: 0 <= i < |after.data| ==> after.data[i] in before.data || after.data[i] == f)
    && (VisibleFile(after) == VisibleFile(before) || VisibleFile(after) == f)
  }

  lemma ReadIsDurable(d: Dir, p: Plan)
    requires Acknowledged(d)
    ensures Acknowledged(ReadFile(d, p).dir)
    ensures Evolves(d, ReadFile(d, p).dir, VisibleFile(d))
    ensures ReadFile(d, p).fate == Ran ==> ReadFile(d, p).dir.data == [VisibleFile(d)]
  {
  }

  /** After a directory sync that failed the marker stands, unless that could not be written either: the next read
      syncs again. Only the death of the process hides the failure from the caller. */
  lemma FailedSyncIsMarked(d: Dir, sync: Fault, remark: Fault)
    requires FateOf(sync) == Threw
    ensures var s := FsyncParent(d, sync, remark);
            && s.fate == (if FateOf(remark) == Died then Died else Threw)
            && (FateOf(remark) == Ran ==>
                  VisibleMarker(s.dir) && forall p :: RequireDurable(s.dir, p) == Acknowledge(s.dir, p.readSync, p.readRemark, p.readClear))
            && VisibleFile(s.dir) == VisibleFile(d)
  {
  }

  lemma AcknowledgeIsDurable(d: Dir, sync: Fault, remark: Fault, clear: Fault)
    requires VisibleMarker(d)
    ensures var s := Acknowledge(d, sync, remark, clear);
            && (s.dir.data == d.data || s.dir.data == [VisibleFile(d)])
            && (VisibleMarker(s.dir) || s.dir.data == [VisibleFile(d)])
            && (s.fate == Ran ==> s.dir.data == [VisibleFile(d)] && !VisibleMarker(s.dir))
  {
  }

  lemma PersistIsDurable(d: Dir, mark: Fault, markSync: Fault)
    ensures var m := PersistUnacked(d, mark, markSync);
            && (m.dir.data == d.data || m.dir.data == [VisibleFile(d)])
            && (m.dir == d || VisibleMarker(m.dir))
            && (m.fate == Ran ==> VisibleMarker(m.dir))
  {
  }

  lemma PublishIsDurable(d: Dir, f: File, p: Plan)
    requires VisibleMarker(d)
    ensures Acknowledged(Publish(d, f, p).dir)
    ensures Evolves(d, Publish(d, f, p).dir, f)
    ensures Publish(d, f, p).fate == Ran ==> Publish(d, f, p).dir.data == [f] && !VisibleMarker(Publish(d, f, p).dir)
  {
    var r := Call(d, RenameInto(d, f), p.rename);
    AcknowledgeIsDurable(r.dir, p.sync, p.remark, p.clear);
  }

  lemma WriteIsDurable(d: Dir, f: File, p: Plan)
    requires Acknowledged(d)
    ensures Acknowledged(WriteFile(d, f, p).dir)
    ensures Evolves(d, WriteFile(d, f, p).dir, f)
    ensures WriteFile(d, f, p).fate == Ran ==> WriteFile(d, f, p).dir.data == [f] && !VisibleMarker(WriteFile(d, f, p).dir)
  {
    PersistIsDurable(d, p.mark, p.markSync);
    var m := PersistUnacked(d, p.mark, p.markSync);
    if m.fate == Ran {
      PublishIsDurable(m.dir, f, p);
    }
  }

  /** No failure is swallowed: a read or a write returns normally exactly when every call it makes works; and a read
      makes no call but the read itself unless the marker stands. */
  lemma ReturnsExactly(d: Dir, f: File, p: Plan)
    ensures ReadFile(d, p).fate == Ran <==> p.read == Works && (VisibleMarker(d) ==> p.readSync == Works && p.readClear == Works)
    ensures !VisibleMarker(d) ==> ReadFile(d, p).dir == d
    ensures WriteFile(d, f, p).fate == Ran <==>
              p.prepare == Works && p.mark == Works && p.markSync == Works && p.rename == Works && p.sync == Works && p.clear == Works
  {
    AcknowledgeReturns(d, p.readSync, p.readRemark, p.readClear);
    var m := PersistUnacked(d, p.mark, p.markSync);
    AcknowledgeReturns(Call(m.dir, RenameInto(m.dir, f), p.rename).dir, p.sync, p.remark, p.clear);
    hide Acknowledge, SyncDir, RenameInto, SetMarker;
  }

  lemma AcknowledgeReturns(d: Dir, sync: Fault, remark: Fault, clear: Fault)
    ensures Acknowledge(d, sync, remark, clear).fate == Ran <==> sync == Works && clear == Works
  {
    hide SyncDir, SetMarker;
  }

  // ------------------------------------------------------------------ the store's operations

  datatype Outcome = Stored | Exceeded | UnsafeKey | Failed(fate: Fate)

  /** The store after one operation. */
  datatype After<T> = After(dir: Dir, reserved: set<Key>, out: T)

  predicate SafeKey(key: Key) {
    key != "" && key != "__proto__" && key != "constructor" && key != "prototype"
  }

  datatype Answer = Answer(fate: Fate, hit: Option<Entry>)

  function GetStep(d: Dir, reserved: set<Key>, key: Key, now: int, p: Plan): (r: After<Answer>)
  {
    var q := ReadFile(d, p);
    After(q.dir, reserved, Answer(q.fate, if q.fate == Ran then Lookup(VisibleFile(q.dir), key, now) else None))
  }

  /** The capacity check, after the read. */
  function TakeSlot(q: Done, reserved: set<Key>, key: Key, now: int, maxRecords: nat): (r: After<Outcome>)
    ensures r.dir == q.dir
  {
    var f := Live(VisibleFile(q.dir), now);
    if q.fate != Ran then After(q.dir, reserved, Failed(q.fate))
    else if WouldExceed(f, reserved, key, maxRecords) then After(q.dir, reserved, Exceeded)
    else After(q.dir, if key in f then reserved else reserved + {key}, Stored)
  }

  function ReserveStep(d: Dir, reserved: set<Key>, key: Key, now: int, maxRecords: nat, p: Plan): (r: After<Outcome>)
  {
    TakeSlot(ReadFile(d, p), reserved, key, now, maxRecords)
  }

  function CommitStep(d: Dir, reserved: set<Key>, key: Key, e: Entry, now: int, maxRecords: nat, p: Plan): (r: After<Outcome>)
  {
    var q := ReadFile(d, p);
    if q.fate != Ran then After(q.dir, reserved, Failed(q.fate)) else
    var f := Live(VisibleFile(q.dir), now);
    if WouldExceed(f, reserved, key, maxRecords) then After(q.dir, reserved, Exceeded)
    else if !SafeKey(key) then After(q.dir, reserved, UnsafeKey)
    else
      var w := WriteFile(q.dir, f[key := e], p);
      After(w.dir, if w.fate == Ran then reserved - {key} else reserved, if w.fate == Ran then Stored else Failed(w.fate))
  }

  /** `get` acknowledges only what no power loss can take back. */
  lemma HitIsDurable(d: Dir, reserved: set<Key>, key: Key, now: int, p: Plan)
    requires Acknowledged(d)
    ensures var g := GetStep(d, reserved, key, now, p);
            && (g.out.hit.Some? ==> g.dir.data == [VisibleFile(d)] && key in VisibleFile(d) && VisibleFile(d)[key] == g.out.hit.value && now < g.out.hit.value.expiresAt)
            && (g.out.hit.None? && g.out.fate == Ran ==> key in VisibleFile(d) ==> VisibleFile(d)[key].expiresAt <= now)
  {
    ReadIsDurable(d, p);
  }

  /** After a commit that returned normally the only possible file is the live records with the new one;
      after any other outcome every possible file was possible before or is that file, and live records
      are never evicted. A refused commit changes no file. */
  lemma CommitIsDurable(d: Dir, reserved: set<Key>, key: Key, e: Entry, now: int, maxRecords: nat, p: Plan)
    requires Acknowledged(d)
    ensures var a := CommitStep(d, reserved, key, e, now, maxRecords, p);
            var f := Live(VisibleFile(d), now)[key := e];
            && Acknowledged(a.dir) && Evolves(d, a.dir, f)
            && (a.out == Stored ==> a.dir.data == [f] && !VisibleMarker(a.dir) && a.reserved == reserved - {key})
            && (a.out != Stored ==> a.reserved == reserved)
            && (a.out == Exceeded || a.out == UnsafeKey ==> a.dir.data == [VisibleFile(d)])
            && (a.out == Exceeded ==> key !in Live(VisibleFile(d), now) && key !in reserved && |Live(VisibleFile(d), now)| + |reserved| >= maxRecords)
  {
    hide ReadFile, WriteFile;
    ReadIsDurable(d, p);
    var q := ReadFile(d, p);
    if q.fate == Ran {
      WriteIsDurable(q.dir, Live(VisibleFile(q.dir), now)[key := e], p);
    }
  }

  // ------------------------------------------------------------------ when an operation succeeds

  const AllWorks := Plan(Works, Works, Works, Works, Works, Works, Works, Works, Works, Works, Works)

  /** The keys of records that have not expired. */
  function LiveKeys(f: File, now: int): set<Key> { set k | k in f && f[k].expiresAt > now }

  /** Neither on record nor reserved, and no room. */
  predicate Full(d: Dir, reserved: set<Key>, key: Key, now: int, maxRecords: nat) {
    var live := LiveKeys(VisibleFile(d), now);
    key !in live && key !in reserved && |live| + |reserved| >= maxRecords
  }

  lemma LiveIsCounted(f: File, now: int)
    ensures Live(f, now).Keys == LiveKeys(f, now) && |Live(f, now)| == |LiveKeys(f, now)|
  {
    assert |Live(f, now)| == |Live(f, now).Keys|;
  }

  lemma UndisturbedRead(d: Dir)
    ensures var q := ReadFile(d, AllWorks); q.fate == Ran && VisibleFile(q.dir) == VisibleFile(d)
  {
  }

  lemma UndisturbedWrite(d: Dir, f: File)
    ensures var w := WriteFile(d, f, AllWorks); w.fate == Ran && VisibleFile(w.dir) == f
  {
  }

  /** A lookup that no fault disturbs finds the record of the key exactly until it expires. */
  lemma GetFindsExactly(d: Dir, reserved: set<Key>, key: Key, now: int)
    ensures var f := VisibleFile(d);
            GetStep(d, reserved, key, now, AllWorks).out == Answer(Ran, if key in f && f[key].expiresAt > now then Some(f[key]) else None)
  {
    hide ReadFile;
    UndisturbedRead(d);
  }

  /** A slot is refused only for want of room; without a fault it is granted exactly when there is room or the
      key has its place already, and taken exactly for a key that is not on record. */
  lemma ReserveSucceedsExactly(d: Dir, reserved: set<Key>, key: Key, now: int, maxRecords: nat, p: Plan)
    requires Acknowledged(d)
    ensures ReserveStep(d, reserved, key, now, maxRecords, p).out == Exceeded ==> Full(d, reserved, key, now, maxRecords)
    ensures var a := ReserveStep(d, reserved, key, now, maxRecords, AllWorks);
            && a.out == (if Full(d, reserved, key, now, maxRecords) then Exceeded else Stored)
            && a.reserved == (if a.out == Stored && key !in LiveKeys(VisibleFile(d), now) then reserved + {key} else reserved)
  {
    hide ReadFile;
    UndisturbedRead(d);
    ReadIsDurable(d, p);
    LiveIsCounted(VisibleFile(d), now);
  }

  /** The only keys that cannot be recorded. */
  const UnsafeKeys: set<Key> := {"", "__proto__", "constructor", "prototype"}

  /** A commit is refused only for want of room or for one of the four unsafe keys; without a fault it succeeds
      in every other case, and from then on a lookup of the key gives the committed record exactly until it
      expires, and of any other key what it gave before. */
  lemma CommitSucceedsExactly(d: Dir, reserved: set<Key>, key: Key, e: Entry, now: int, maxRecords: nat, p: Plan, k: Key, later: int)
    requires Acknowledged(d) && now <= later
    ensures var out := CommitStep(d, reserved, key, e, now, maxRecords, p).out;
            (out == Exceeded ==> Full(d, reserved, key, now, maxRecords)) && (out == UnsafeKey ==> key in UnsafeKeys)
    ensures var a := CommitStep(d, reserved, key, e, now, maxRecords, AllWorks);
            && a.out == (if Full(d, reserved, key, now, maxRecords) then Exceeded else if key in UnsafeKeys then UnsafeKey else Stored)
            && (a.out == Stored ==>
                  && a.reserved == reserved - {key}
                  && GetStep(a.dir, a.reserved, key, later, AllWorks).out == Answer(Ran, if e.expiresAt > later then Some(e) else None)
                  && (k != key ==> GetStep(a.dir, a.reserved, k, later, AllWorks).out == GetStep(d, reserved, k, later, AllWorks).out))
  {
    hide ReadFile, WriteFile, GetStep;
    UndisturbedRead(d);
    ReadIsDurable(d, p);
    LiveIsCounted(VisibleFile(d), now);
    var a := CommitStep(d, reserved, key, e, now, maxRecords, AllWorks);
    var f := Live(VisibleFile(d), now)[key := e];
    UndisturbedWrite(ReadFile(d, AllWorks).dir, f);
    GetFindsExactly(a.dir, a.reserved, key, later);
    GetFindsExactly(a.dir, a.reserved, k, later);
    GetFindsExactly(d, reserved, k, later);
  }

  /** The store object: the directory it writes to and the slots held by requests in flight. */
  class DedupStore {
    const maxRecords: nat
    var dir: Dir
    var reserved: set<Key>

    constructor (maxRecords: nat)
      ensures this.maxRecords == maxRecords && dir == Dir([EmptyFile], [false]) && reserved == {}
    {
      this.maxRecords := maxRecords;
      dir := Dir([EmptyFile], [false]);
      reserved := {};
    }

    method FsyncParentOrThrow(sync: Fault, remark: Fault) returns (fate: Fate)
      modifies this`dir
      ensures Done(dir, fate) == FsyncParent(old(dir), sync, remark)
    {
      if TookEffect(sync) { dir := SyncDir(dir); }
      fate := FateOf(sync);
      if fate != Threw { return; }
      if TookEffect(remark) { dir := SetMarker(dir, true); }
      if FateOf(remark) == Died { fate := Died; }
    }

    method ReadStore(p: Plan) returns (fate: Fate)
      modifies this`dir
      ensures Done(dir, fate) == ReadFile(old(dir), p)
    {
      if VisibleMarker(dir) {
        fate := FsyncParentOrThrow(p.readSync, p.readRemark);
        if fate != Ran { return; }
        if TookEffect(p.readClear) { dir := SetMarker(dir, false); }
        fate := FateOf(p.readClear);
        if fate != Ran { return; }
      }
      fate := FateOf(p.read);
    }

    method Get(key: Key, now: int, p: Plan) returns (a: Answer)
      modifies this`dir
      ensures After(dir, reserved, a) == GetStep(old(dir), old(reserved), key, now, p)
    {
      var fate := ReadStore(p);
      if fate != Ran { return Answer(fate, None); }
      a := Answer(Ran, Lookup(VisibleFile(dir), key, now));
    }

    method ReserveCapacity(key: Key, now: int, p: Plan) returns (o: Outcome)
      modifies this`dir, this`reserved
      ensures After(dir, reserved, o) == ReserveStep(old(dir), old(reserved), key, now, maxRecords, p)
    {
      var fate := ReadStore(p);
      if fate != Ran { return Failed(fate); }
      var f := Live(VisibleFile(dir), now);
      if WouldExceed(f, reserved, key, maxRecords) { return Exceeded; }
      if key !in f { reserved := reserved + {key}; }
      o := Stored;
    }

    method ReleaseCapacity(key: Key)
      modifies this`reserved
      ensures reserved == old(reserved) - {key}
    {
      reserved := reserved - {key};
    }

    method WriteStore(f: File, p: Plan) returns (fate: Fate)
      modifies this`dir
      ensures Done(dir, fate) == WriteFile(old(dir), f, p)
    {
      fate := FateOf(p.prepare);
      if fate != Ran { return; }
      if TookEffect(p.mark) { dir := SetMarker(dir, true); }
      fate := FateOf(p.mark);
      if fate != Ran { return; }
      if TookEffect(p.markSync) { dir := SyncDir(dir); }
      fate := FateOf(p.markSync);
      if fate != Ran { return; }
      if TookEffect(p.rename) { dir := RenameInto(dir, f); }
      fate := FateOf(p.rename);
      if fate != Ran { return; }
      fate := FsyncParentOrThrow(p.sync, p.remark);
      if fate != Ran { return; }
      if TookEffect(p.clear) { dir := SetMarker(dir, false); }
      fate := FateOf(p.clear);
    }

    method Commit(key: Key, e: Entry, now: int, p: Plan) returns (o: Outcome)
      modifies this`dir, this`reserved
      ensures After(dir, reserved, o) == CommitStep(old(dir), old(reserved), key, e, now, maxRecords, p)
    {
      var fate := ReadStore(p);
      if fate != Ran { return Failed(fate); }
      var f := Live(VisibleFile(dir), now);
      if WouldExceed(f, reserved, key, maxRecords) { return Exceeded; }
      if !SafeKey(key) { return UnsafeKey; }
      fate := WriteStore(f[key := e], p);
      if fate != Ran { return Failed(fate); }
      reserved := reserved - {key};
      o := Stored;
    }
  }

  /** writeAll: each call takes at most the bytes it is offered, `offers` being what the system is ready
      to take. The loop ends with the whole payload written, or throws with a proper prefix on disk. */
  method WriteAll(payload: seq<nat>, offers: seq<int>) returns (done: bool, written: seq<nat>)
    ensures done ==> written == payload
    ensures !done ==> written < payload
    ensures |offers| >= |payload| && (forall i :: 0 <= i < |payload| ==> offers[i] > 0) ==> done
    ensures payload != [] && (offers == [] || offers[0] <= 0) ==> !done && written == []
  {
    var offset, k := 0, 0;
    while offset < |payload|
      invariant 0 <= offset <= |payload| && k <= |offers|
      invariant (offset == 0 ==> k == 0) && k <= offset
      invariant offset > 0 ==> |offers| > 0 && offers[0] > 0
    {
      if k == |offers| { return false, payload[..offset]; }
      var left := |payload| - offset;
      var wrote := if offers[k] > left then left else offers[k];
      if wrote <= 0 { return false, payload[..offset]; }
      offset := offset + wrote;
      k := k + 1;
    }
    return true, payload[..offset];
  }
}
