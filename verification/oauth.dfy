/** The OAuth grant and token store (oauth-store.ts): four tables in one file, pruned of expired rows on
    every load and save, behind a cache that a save drops before it writes. */
module OAuth {
  import opened Common

  const CODE_TTL := 600_000
  const ACCESS_TTL := 3_600_000
  const REFRESH_TTL := 2_592_000_000

  type GrantId = nat

  /** A secret and its hash are identified: hashing is injective. */
  type Hash = nat

  datatype Grant = Grant(client: string, address: string, lastUsed: int)

  /** A code, access or refresh row. `aud` is the resource of a code; `bound` holds the client, redirect
      and challenge of a code and is empty otherwise. */
  datatype Row = Row(grant: GrantId, address: string, aud: string, expires: int, bound: string)

  type Table = map<Hash, Row>

  datatype Store = Store(grants: map<GrantId, Grant>, codes: Table, access: Table, refresh: Table)

  const EmptyStore := Store(map[], map[], map[], map[])

  // ------------------------------------------------------------------ the body of each operation

  datatype Op =
    | Create(id: GrantId, client: string, address: string, code: Hash, resource: string, bound: string)
    | Peek(code: Hash)
    | Consume(code: Hash)
    | Issue(grant: GrantId, address: string, aud: string, newAccess: Hash, newRefresh: Hash)
    | Rotate(token: Hash, wanted: Option<string>, caller: Option<string>, newAccess: Hash, newRefresh: Hash)
    | RevokeToken(token: Hash, caller: Option<string>)
    | RevokeGrant(grant: GrantId)
    | RevokeAddress(address: string)
    | Lookup(token: Hash)

  datatype Answer = Created | CodeRow(row: Row) | NotFound | Expired | GrantMissing | Issued | Rotated(row: Row)
    | AudMismatch | ClientMismatch | Revoked(some: bool) | RevokedMany(n: nat) | Access(row: Row)

  /** `dirty` says that the body saves the store. */
  datatype Applied = Applied(store: Store, answer: Answer, dirty: bool)

  function FindCode(s: Store, code: Hash, now: int): Answer {
    if code !in s.codes then NotFound
    else if s.codes[code].expires <= now then Expired
    else CodeRow(s.codes[code])
  }

  function AddPair(s: Store, g: GrantId, address: string, aud: string, a: Hash, r: Hash, now: int): Store
    requires g in s.grants
  {
    Store(s.grants[g := s.grants[g].(lastUsed := now)], s.codes,
          s.access[a := Row(g, address, aud, now + ACCESS_TTL, "")],
          s.refresh[r := Row(g, address, aud, now + REFRESH_TTL, "")])
  }

  function RotateAnswer(s: Store, op: Op, now: int): Answer
    requires op.Rotate?
  {
    if op.token !in s.refresh then NotFound else
    var row := s.refresh[op.token];
    if row.expires <= now then Expired
    else if row.grant !in s.grants then GrantMissing
    else if op.wanted.Some? && row.aud != op.wanted.value then AudMismatch
    else if op.caller.Some? && s.grants[row.grant].client != op.caller.value then ClientMismatch
    else Rotated(row)
  }

  /** The grant a presented token belongs to: the access table is asked first. */
  function TokenGrant(s: Store, token: Hash): Option<GrantId> {
    if token in s.access then Some(s.access[token].grant)
    else if token in s.refresh then Some(s.refresh[token].grant)
    else None
  }

  predicate MayRevoke(s: Store, token: Hash, caller: Option<string>) {
    var g := TokenGrant(s, token);
    caller.Some? && caller.value != "" && g.Some? && g.value in s.grants && s.grants[g.value].client == caller.value
  }

  function Without(t: Table, grants: set<GrantId>): Table {
    map h | h in t && t[h].grant !in grants :: t[h]
  }

  function Purge(s: Store, grants: set<GrantId>): Store {
    Store(s.grants - grants, Without(s.codes, grants), Without(s.access, grants), Without(s.refresh, grants))
  }

  function GrantsOf(s: Store, address: string): set<GrantId> {
    set g | g in s.grants && s.grants[g].address == address
  }

  function Apply(s: Store, op: Op, now: int): Applied {
    match op
    case Create(id, client, address, code, resource, bound) =>
      Applied(s.(grants := s.grants[id := Grant(client, address, now)],
                 codes := s.codes[code := Row(id, address, resource, now + CODE_TTL, bound)]), Created, true)
    case Peek(code) => Applied(s, FindCode(s, code, now), false)
    case Consume(code) => Applied(s.(codes := s.codes - {code}), FindCode(s, code, now), code in s.codes)
    case Issue(g, address, aud, a, r) =>
      if g !in s.grants then Applied(s, GrantMissing, false) else Applied(AddPair(s, g, address, aud, a, r, now), Issued, true)
    case Rotate(token, _, _, a, r) =>
      var answer := RotateAnswer(s, op, now);
      if answer == Expired then Applied(s.(refresh := s.refresh - {token}), Expired, true)
      else if !answer.Rotated? then Applied(s, answer, false)
      else Applied(AddPair(s.(refresh := s.refresh - {token}), answer.row.grant, answer.row.address, answer.row.aud, a, r, now), answer, true)
    case RevokeToken(token, caller) =>
      if !MayRevoke(s, token, caller) then Applied(s, Revoked(false), false)
      else Applied(s.(access := s.access - {token}, refresh := s.refresh - {token}), Revoked(true), true)
    case RevokeGrant(g) =>
      if g !in s.grants then Applied(s, Revoked(false), false) else Applied(Purge(s, {g}), Revoked(true), true)
    case RevokeAddress(address) =>
      var gs := GrantsOf(s, address);
      Applied(Purge(s, gs), RevokedMany(|gs|), gs != {})
    case Lookup(token) =>
      Applied(s, if token !in s.access then NotFound
                 else if s.access[token].expires <= now then Expired
                 else if s.access[token].grant !in s.grants then NotFound
                 else Access(s.access[token]), false)
  }

  // ------------------------------------------------------------------ pruning

  function Live(t: Table, now: int): Table {
    map h | h in t && t[h].expires > now :: t[h]
  }

  function Prune(s: Store, now: int): Store {
    Store(s.grants, Live(s.codes, now), Live(s.access, now), Live(s.refresh, now))
  }

  /** The same store but for rows that have expired. */
  predicate Alike(a: Store, b: Store, now: int) { Prune(a, now) == Prune(b, now) }

  lemma PruneAgain(s: Store, before: int, now: int)
    requires before <= now
    ensures Prune(Prune(s, before), now) == Prune(s, now)
  {
  }

  lemma AlikeLater(a: Store, b: Store, before: int, now: int)
    requires before <= now && Alike(a, b, before)
    ensures Alike(a, b, now)
  {
    PruneAgain(a, before, now);
    PruneAgain(b, before, now);
  }

  /** No token is in both tables. */
  predicate KeysApart(s: Store) { s.access.Keys !! s.refresh.Keys }

  /** An expired row that its client may still have deleted. */
  predicate OwnsExpired(s: Store, op: Op, now: int)
    requires op.RevokeToken?
  {
    MayRevoke(s, op.token, op.caller) && op.token !in Prune(s, now).access && op.token !in Prune(s, now).refresh
  }

  predicate UpToExpiry(pruned: Answer, plain: Answer) {
    pruned == plain || (pruned == NotFound && plain == Expired)
  }

  lemma LiveTwice(t: Table, now: int)
    ensures Live(Live(t, now), now) == Live(t, now)
  {
  }

  lemma LiveMinus(t: Table, h: Hash, now: int)
    ensures Live(Live(t, now) - {h}, now) == Live(t - {h}, now)
    ensures h !in Live(t, now) ==> Live(t - {h}, now) == Live(t, now)
  {
  }

  lemma LivePut(t: Table, u: Table, h: Hash, row: Row, now: int)
    requires Live(t, now) == Live(u, now)
    ensures Live(t[h := row], now) == Live(u[h := row], now)
  {
    LivePutIs(t, h, row, now);
    LivePutIs(u, h, row, now);
  }

  lemma LivePutIs(t: Table, h: Hash, row: Row, now: int)
    ensures Live(t[h := row], now) == if row.expires > now then Live(t, now)[h := row] else Live(t, now) - {h}
  {
  }

  lemma LiveWithout(t: Table, grants: set<GrantId>, now: int)
    ensures Live(Without(Live(t, now), grants), now) == Live(Without(t, grants), now)
  {
  }

  lemma RotateCommutes(s: Store, op: Op, now: int)
    requires op.Rotate?
    ensures Alike(Apply(Prune(s, now), op, now).store, Apply(s, op, now).store, now)
  {
    var p := Prune(s, now);
    LiveTwice(s.codes, now);
    LiveTwice(s.access, now);
    LiveTwice(s.refresh, now);
    LiveMinus(s.refresh, op.token, now);
    var row := RotateAnswer(s, op, now);
    if row.Rotated? {
      var g := row.row;
      LivePut(p.access, s.access, op.newAccess, Row(g.grant, g.address, g.aud, now + ACCESS_TTL, ""), now);
      LivePut(p.refresh - {op.token}, s.refresh - {op.token}, op.newRefresh, Row(g.grant, g.address, g.aud, now + REFRESH_TTL, ""), now);
    }
  }

  lemma RevokeTokenCommutes(s: Store, op: Op, now: int)
    requires op.RevokeToken? && KeysApart(s)
    ensures Alike(Apply(Prune(s, now), op, now).store, Apply(s, op, now).store, now)
  {
    LiveTwice(s.codes, now);
    LiveTwice(s.access, now);
    LiveTwice(s.refresh, now);
    LiveMinus(s.access, op.token, now);
    LiveMinus(s.refresh, op.token, now);
    var p := Prune(s, now);
    if op.token in p.access || op.token in p.refresh {
      SameOwner(s, op.token, now);
      assert MayRevoke(p, op.token, op.caller) <==> MayRevoke(s, op.token, op.caller);
    } else {
      assert !MayRevoke(p, op.token, op.caller);
    }
  }

  /** A live token has one owner in the pruned and in the whole store. */
  lemma SameOwner(s: Store, token: Hash, now: int)
    requires KeysApart(s) && (token in Prune(s, now).access || token in Prune(s, now).refresh)
    ensures TokenGrant(Prune(s, now), token) == TokenGrant(s, token)
  {
    assert token in s.access ==> token !in s.refresh;
  }

  /** On a pruned store every operation leaves the same live rows as on the whole store. */
  lemma ApplyCommutes(s: Store, op: Op, now: int)
    requires KeysApart(s)
    ensures Alike(Apply(Prune(s, now), op, now).store, Apply(s, op, now).store, now)
  {
    var p := Prune(s, now);
    LiveTwice(s.codes, now);
    LiveTwice(s.access, now);
    LiveTwice(s.refresh, now);
    match op
    case Create(id, client, address, code, resource, bound) =>
      LivePut(p.codes, s.codes, code, Row(id, address, resource, now + CODE_TTL, bound), now);
    case Consume(code) => LiveMinus(s.codes, code, now);
    case Issue(g, address, aud, a, r) => {
      LivePut(p.access, s.access, a, Row(g, address, aud, now + ACCESS_TTL, ""), now);
      LivePut(p.refresh, s.refresh, r, Row(g, address, aud, now + REFRESH_TTL, ""), now);
    }
    case Rotate(_, _, _, _, _) => RotateCommutes(s, op, now);
    case RevokeToken(_, _) => RevokeTokenCommutes(s, op, now);
    case RevokeGrant(g) => PurgeCommutes(s, {g}, now);
    case RevokeAddress(address) => {
      assert GrantsOf(p, address) == GrantsOf(s, address);
      PurgeCommutes(s, GrantsOf(s, address), now);
    }
    case Peek(_) => {}
    case Lookup(_) => {}
  }

  lemma PurgeCommutes(s: Store, grants: set<GrantId>, now: int)
    ensures Alike(Purge(Prune(s, now), grants), Purge(s, grants), now)
  {
    LiveWithout(s.codes, grants, now);
    LiveWithout(s.access, grants, now);
    LiveWithout(s.refresh, grants, now);
  }

  /** It gives the same answer, an expired row counting as a missing one, except when a client revokes its
      own expired token: that is a deletion for the whole store and nothing for the pruned one. */
  lemma AnswersAgree(s: Store, op: Op, now: int)
    requires KeysApart(s)
    ensures UpToExpiry(Apply(Prune(s, now), op, now).answer, Apply(s, op, now).answer) <==> !(op.RevokeToken? && OwnsExpired(s, op, now))
  {
    if op.RevokeAddress? { assert GrantsOf(Prune(s, now), op.address) == GrantsOf(s, op.address); }
  }

  // ------------------------------------------------------------------ the file and the cache

  /** The file and the cached object. A cache is used only while the file is the one it was read from or
      written to; with one writer that is while it is there. */
  datatype Disk = Disk(file: Store, cache: Option<Store>)

  /** `data` is None if the call threw or the process died. */
  datatype Load = Load(d: Disk, data: Option<Store>)

  /** loadStore with pruning: a hit is pruned in memory; a cold read writes the pruned file back if asked. */
  function LoadPruned(d: Disk, now: int, persist: bool, f: Fault): Load {
    var data := Prune(if d.cache.Some? then d.cache.value else d.file, now);
    if d.cache.Some? || !persist || data == d.file then Load(d.(cache := Some(data)), Some(data))
    else if f == Works then Load(Disk(data, Some(data)), Some(data))
    else Load(Disk(if TookEffect(f) then data else d.file, None), None)
  }

  /** save: the cache is dropped before the write. */
  function SavePruned(d: Disk, data: Store, now: int, f: Fault): Disk {
    var pruned := Prune(data, now);
    Disk(if TookEffect(f) then pruned else d.file, if f == Works then Some(pruned) else None)
  }

  /** `answer` is None if the call threw or the process died; `applied` says that its body is in the file. */
  datatype Served = Served(d: Disk, answer: Option<Answer>, applied: bool)

  function Serve(d: Disk, op: Op, now: int, onLoad: Fault, onSave: Fault): Served {
    if op.RevokeToken? && (op.caller.None? || op.caller.value == "") then Served(d, Some(Revoked(false)), true) else
    var l := LoadPruned(d, now, !op.RevokeToken?, onLoad);
    if l.data.None? then Served(l.d, None, false) else
    var a := Apply(l.data.value, op, now);
    if !a.dirty then Served(l.d, Some(a.answer), true)
    else Served(SavePruned(l.d, a.store, now, onSave), if onSave == Works then Some(a.answer) else None, TookEffect(onSave))
  }

  // ------------------------------------------------------------------ histories

  /** The secrets and grants made so far, the issueTokenPair calls per grant, and what succeeded. */
  datatype History = History(hashes: set<Hash>, grants: set<GrantId>, issues: multiset<GrantId>,
                             consumed: multiset<Hash>, rotated: multiset<Hash>, revoked: set<GrantId>)

  const NoHistory := History({}, {}, multiset{}, multiset{}, multiset{}, {})

  function NewHashes(op: Op): set<Hash> {
    match op
    case Create(_, _, _, code, _, _) => {code}
    case Issue(_, _, _, a, r) => {a, r}
    case Rotate(_, _, _, a, r) => {a, r}
    case _ => {}
  }

  /** Random secrets and grant ids never repeat. */
  predicate IsFresh(h: History, op: Op) {
    && NewHashes(op) !! h.hashes
    && (op.Create? ==> op.id !in h.grants)
    && (op.Issue? || op.Rotate? ==> op.newAccess != op.newRefresh)
  }

  function Attempt(h: History, op: Op): History {
    h.(hashes := h.hashes + NewHashes(op),
       grants := h.grants + if op.Create? then {op.id} else {},
       issues := h.issues + if op.Issue? then multiset{op.grant} else multiset{})
  }

  /** The history after a call that answered `answer` on a store with these grants. */
  function Record(h: History, op: Op, answer: Option<Answer>, s: Store): History {
    var t := Attempt(h, op);
    if answer.None? then t
    else if op.Consume? && answer.value.CodeRow? then t.(consumed := t.consumed + multiset{op.code})
    else if op.Rotate? && answer.value.Rotated? then t.(rotated := t.rotated + multiset{op.token})
    else if op.RevokeGrant? && answer.value == Revoked(true) then t.(revoked := t.revoked + {op.grant})
    else if op.RevokeAddress? then t.(revoked := t.revoked + GrantsOf(s, op.address))
    else t
  }

  predicate Referenced(t: Table, grants: map<GrantId, Grant>) {
    forall h :: h in t ==> t[h].grant in grants
  }

  /** Every code, access and refresh row points to an existing grant. */
  predicate References(s: Store) {
    Referenced(s.codes, s.grants) && Referenced(s.access, s.grants) && Referenced(s.refresh, s.grants)
  }

  function RefreshOf(t: Table, g: GrantId): set<Hash> {
    set h | h in t && t[h].grant == g
  }

  ghost predicate Bounded(t: Table, issues: multiset<GrantId>) {
    forall g: GrantId :: |RefreshOf(t, g)| <= issues[g]
  }

  predicate Known(s: Store, h: History) {
    s.codes.Keys <= h.hashes && s.access.Keys <= h.hashes && s.refresh.Keys <= h.hashes && s.grants.Keys <= h.grants
  }

  /** What has been used up is not in the store. */
  predicate Spent(s: Store, h: History) {
    && (forall c :: c in h.consumed ==> c !in s.codes)
    && (forall c :: c in h.rotated ==> c !in s.refresh)
    && h.revoked !! s.grants.Keys
  }

  ghost predicate StoreOk(s: Store, h: History) {
    References(s) && KeysApart(s) && Known(s, h) && Spent(s, h) && Bounded(s.refresh, h.issues)
  }

  predicate HistoryOk(h: History) {
    && (forall c :: c in h.consumed ==> c in h.hashes && h.consumed[c] == 1)
    && (forall c :: c in h.rotated ==> c in h.hashes && h.rotated[c] == 1)
    && h.revoked <= h.grants
  }

  lemma SmallerBounded(t: Table, u: Table, issues: multiset<GrantId>)
    requires Bounded(t, issues) && u.Keys <= t.Keys && forall h :: h in u ==> u[h] == t[h]
    ensures Bounded(u, issues)
  {
    forall g: GrantId
      ensures |RefreshOf(u, g)| <= issues[g]
    {
      Subset(RefreshOf(u, g), RefreshOf(t, g));
    }
  }

  lemma Subset(a: set<Hash>, b: set<Hash>)
    requires a <= b
    ensures |a| <= |b|
  {
    assert b == a + (b - a);
  }

  /** Adding a row for one more issue. */
  lemma IssueBounded(t: Table, r: Hash, row: Row, issues: multiset<GrantId>)
    requires Bounded(t, issues) && r !in t
    ensures Bounded(t[r := row], issues + multiset{row.grant})
  {
    forall g: GrantId
      ensures |RefreshOf(t[r := row], g)| <= (issues + multiset{row.grant})[g]
    {
      AddedRows(t, r, row, g);
      assert |RefreshOf(t, g)| <= issues[g];
    }
  }

  lemma AddedRows(t: Table, r: Hash, row: Row, g: GrantId)
    requires r !in t
    ensures |RefreshOf(t[r := row], g)| == |RefreshOf(t, g)| + if g == row.grant then 1 else 0
  {
    if g == row.grant {
      assert RefreshOf(t[r := row], g) == RefreshOf(t, g) + {r};
    } else {
      assert RefreshOf(t[r := row], g) == RefreshOf(t, g);
    }
  }

  /** Replacing a row by one of the same grant. */
  lemma RotateBounded(t: Table, spent: Hash, r: Hash, row: Row, issues: multiset<GrantId>)
    requires Bounded(t, issues) && spent in t && t[spent].grant == row.grant && r !in t
    ensures Bounded((t - {spent})[r := row], issues)
  {
    forall g: GrantId
      ensures |RefreshOf((t - {spent})[r := row], g)| <= issues[g]
    {
      ReplacedRows(t, spent, r, row, g);
      assert |RefreshOf(t, g)| <= issues[g];
    }
  }

  lemma ReplacedRows(t: Table, spent: Hash, r: Hash, row: Row, g: GrantId)
    requires spent in t && t[spent].grant == row.grant && r !in t
    ensures |RefreshOf((t - {spent})[r := row], g)| == |RefreshOf(t, g)|
  {
    var before := RefreshOf(t, g);
    if g == row.grant {
      assert RefreshOf((t - {spent})[r := row], g) == (before - {spent}) + {r};
    } else {
      assert RefreshOf((t - {spent})[r := row], g) == before;
    }
  }

  lemma PruneOk(s: Store, h: History, now: int)
    requires StoreOk(s, h)
    ensures StoreOk(Prune(s, now), h)
  {
    SmallerBounded(s.refresh, Live(s.refresh, now), h.issues);
  }

  /** A call that fails still counts its secrets as made. */
  lemma AttemptOk(s: Store, h: History, op: Op)
    requires StoreOk(s, h) && IsFresh(h, op)
    ensures StoreOk(s, Attempt(h, op))
  {
    forall g: GrantId
      ensures |RefreshOf(s.refresh, g)| <= Attempt(h, op).issues[g]
    {
      assert |RefreshOf(s.refresh, g)| <= h.issues[g];
    }
  }

  lemma PurgeOk(s: Store, h: History, gone: set<GrantId>)
    requires StoreOk(s, h)
    ensures StoreOk(Purge(s, gone), h.(revoked := h.revoked + gone))
  {
    SmallerBounded(s.refresh, Without(s.refresh, gone), h.issues);
  }

  lemma AddPairOk(s: Store, g: GrantId, address: string, aud: string, a: Hash, r: Hash, now: int, h: History)
    requires g in s.grants && References(s) && KeysApart(s) && Known(s, h) && Spent(s, h) && HistoryOk(h)
    requires {a, r} !! h.hashes && a != r
    ensures var t := AddPair(s, g, address, aud, a, r, now);
            var k := h.(hashes := h.hashes + {a, r});
            References(t) && KeysApart(t) && Known(t, k) && Spent(t, k)
  {
  }

  /** What an operation leaves is in order for the history that records its answer. */
  ghost predicate Leaves(s: Store, op: Op, now: int, h: History) {
    StoreOk(Apply(s, op, now).store, Record(h, op, Some(Apply(s, op, now).answer), s))
  }

  ghost predicate Ready(s: Store, op: Op, h: History) {
    StoreOk(s, h) && HistoryOk(h) && IsFresh(h, op)
  }

  lemma SameHistory(h: History)
    ensures h.(hashes := h.hashes + {}, grants := h.grants + {}, issues := h.issues + multiset{}) == h
  {
    assert h.hashes + {} == h.hashes && h.grants + {} == h.grants && h.issues + multiset{} == h.issues;
  }

  lemma RotateOk(s: Store, op: Op, now: int, h: History)
    requires op.Rotate? && Ready(s, op, h) && RotateAnswer(s, op, now).Rotated?
    ensures Leaves(s, op, now, h)
  {
    var row := s.refresh[op.token];
    var cut := s.(refresh := s.refresh - {op.token});
    AddPairOk(cut, row.grant, row.address, row.aud, op.newAccess, op.newRefresh, now, h);
    var t := Apply(s, op, now).store;
    RotateBounded(s.refresh, op.token, op.newRefresh, t.refresh[op.newRefresh], h.issues);
    assert op.token in h.hashes && op.token !in t.refresh;
    assert h.issues + multiset{} == h.issues && h.grants + {} == h.grants;
  }

  /** A rotation that is refused drops the token if it has expired. */
  lemma RefusedRotateOk(s: Store, op: Op, now: int, h: History)
    requires op.Rotate? && Ready(s, op, h) && !RotateAnswer(s, op, now).Rotated?
    ensures Leaves(s, op, now, h)
  {
    AttemptOk(s, h, op);
    SmallerBounded(s.refresh, s.refresh - {op.token}, Attempt(h, op).issues);
  }

  lemma ConsumeOk(s: Store, op: Op, now: int, h: History)
    requires op.Consume? && Ready(s, op, h)
    ensures Leaves(s, op, now, h)
  {
    SameHistory(h);
  }

  lemma IssueOk(s: Store, op: Op, now: int, h: History)
    requires op.Issue? && Ready(s, op, h) && op.grant in s.grants
    ensures Leaves(s, op, now, h)
  {
    AddPairOk(s, op.grant, op.address, op.aud, op.newAccess, op.newRefresh, now, h);
    IssueBounded(s.refresh, op.newRefresh, Row(op.grant, op.address, op.aud, now + REFRESH_TTL, ""), h.issues);
    assert h.grants + {} == h.grants;
  }

  lemma CreateOk(s: Store, op: Op, now: int, h: History)
    requires op.Create? && Ready(s, op, h)
    ensures Leaves(s, op, now, h)
  {
    assert h.issues + multiset{} == h.issues;
  }

  lemma RevokeTokenOk(s: Store, op: Op, now: int, h: History)
    requires op.RevokeToken? && Ready(s, op, h)
    ensures Leaves(s, op, now, h)
  {
    SameHistory(h);
    SmallerBounded(s.refresh, s.refresh - {op.token}, h.issues);
  }

  lemma RevokeGrantOk(s: Store, op: Op, now: int, h: History)
    requires op.RevokeGrant? && Ready(s, op, h)
    ensures Leaves(s, op, now, h)
  {
    SameHistory(h);
    PurgeOk(s, h, {op.grant});
  }

  lemma RevokeAddressOk(s: Store, op: Op, now: int, h: History)
    requires op.RevokeAddress? && Ready(s, op, h)
    ensures Leaves(s, op, now, h)
  {
    SameHistory(h);
    PurgeOk(s, h, GrantsOf(s, op.address));
  }

  lemma UnchangedOk(s: Store, op: Op, now: int, h: History)
    requires Ready(s, op, h) && (op.Peek? || op.Lookup? || (op.Issue? && op.grant !in s.grants))
    ensures Leaves(s, op, now, h)
  {
    AttemptOk(s, h, op);
  }

  lemma ApplyOk(s: Store, op: Op, now: int, h: History)
    requires Ready(s, op, h)
    ensures Leaves(s, op, now, h)
  {
    match op
    case Create(_, _, _, _, _, _) => CreateOk(s, op, now, h);
    case Peek(_) => UnchangedOk(s, op, now, h);
    case Lookup(_) => UnchangedOk(s, op, now, h);
    case Consume(_) => ConsumeOk(s, op, now, h);
    case Issue(g, _, _, _, _) => if g in s.grants { IssueOk(s, op, now, h); } else { UnchangedOk(s, op, now, h); }
    case Rotate(token, _, _, _, _) => if RotateAnswer(s, op, now).Rotated? { RotateOk(s, op, now, h); } else { RefusedRotateOk(s, op, now, h); }
    case RevokeToken(_, _) => RevokeTokenOk(s, op, now, h);
    case RevokeGrant(_) => RevokeGrantOk(s, op, now, h);
    case RevokeAddress(_) => RevokeAddressOk(s, op, now, h);
  }

  lemma RecordIsOk(s: Store, op: Op, now: int, h: History)
    requires Ready(s, op, h)
    ensures HistoryOk(Record(h, op, Some(Apply(s, op, now).answer), s))
  {
    match op
    case Consume(code) => ConsumedOnce(s, op, now, h);
    case Rotate(_, _, _, _, _) => RotatedOnce(s, op, now, h);
    case RevokeAddress(address) => assert GrantsOf(s, address) <= h.grants;
    case _ => {}
  }

  lemma ConsumedOnce(s: Store, op: Op, now: int, h: History)
    requires op.Consume? && Ready(s, op, h)
    ensures HistoryOk(Record(h, op, Some(FindCode(s, op.code, now)), s))
  {
    SameHistory(h);
    if op.code in s.codes { assert op.code !in h.consumed && op.code in h.hashes; }
  }

  lemma RotatedOnce(s: Store, op: Op, now: int, h: History)
    requires op.Rotate? && Ready(s, op, h)
    ensures HistoryOk(Record(h, op, Some(Apply(s, op, now).answer), s))
  {
    var answer := Apply(s, op, now).answer;
    assert answer == RotateAnswer(s, op, now);
    if answer.Rotated? { assert op.token !in h.rotated && op.token in h.hashes; }
  }

  // ------------------------------------------------------------------ whole runs

  /** The store, the plain file that is never pruned or cached, the clock, and the history. */
  datatype World = World(d: Disk, plain: Store, clock: int, h: History)

  datatype Event = Call(op: Op, wait: nat, onLoad: Fault, onSave: Fault) | Restart

  const Start := World(Disk(EmptyStore, None), EmptyStore, 0, NoHistory)

  /** A call at time `now`. */
  function Called(w: World, op: Op, now: int, onLoad: Fault, onSave: Fault): World {
    var s := Serve(w.d, op, now, onLoad, onSave);
    World(s.d, if s.applied then Apply(w.plain, op, now).store else w.plain, now, Record(w.h, op, s.answer, w.plain))
  }

  function Step(w: World, e: Event): World {
    match e
    case Restart => w.(d := w.d.(cache := None))
    case Call(op, wait, onLoad, onSave) => Called(w, op, w.clock + wait, onLoad, onSave)
  }

  function Run(w: World, events: seq<Event>): World
    decreases |events|
  {
    if events == [] then w else Run(Step(w, events[0]), events[1..])
  }

  predicate FreshRun(w: World, events: seq<Event>)
    decreases |events|
  {
    events == [] || ((events[0].Call? ==> IsFresh(w.h, events[0].op)) && FreshRun(Step(w, events[0]), events[1..]))
  }

  /** A load, whether it hits or reads, gives the live rows of the plain file. */
  lemma LoadGivesLive(d: Disk, plain: Store, clock: int, now: int, persist: bool, f: Fault)
    requires clock <= now && Alike(d.file, plain, clock) && (d.cache.Some? ==> Alike(d.cache.value, plain, clock))
    ensures var l := LoadPruned(d, now, persist, f);
            && (l.data.Some? ==> l.data.value == Prune(plain, now) && l.d.cache == l.data)
            && (l.data.None? ==> l.d.cache.None?)
            && (l.d.file == d.file || l.d.file == Prune(plain, now))
            && Alike(l.d.file, plain, now)
  {
    AlikeLater(d.file, plain, clock, now);
    if d.cache.Some? { AlikeLater(d.cache.value, plain, clock, now); }
    PruneAgain(plain, now, now);
  }

  /** A store that is in order and has the live rows of the plain file. */
  ghost predicate Fits(s: Store, plain: Store, now: int, h: History) {
    StoreOk(s, h) && Alike(s, plain, now)
  }

  ghost predicate DiskFits(d: Disk, plain: Store, now: int, h: History) {
    Fits(d.file, plain, now, h) && (d.cache.Some? ==> Fits(d.cache.value, plain, now, h))
  }

  lemma RecordSame(h: History, op: Op, answer: Option<Answer>, s: Store, t: Store)
    requires s.grants == t.grants
    ensures Record(h, op, answer, s) == Record(h, op, answer, t)
  {
    if op.RevokeAddress? { assert GrantsOf(s, op.address) == GrantsOf(t, op.address); }
  }

  /** A history that knows the same secrets and less of what was used up. */
  predicate SaysLess(small: History, big: History) {
    && small.hashes == big.hashes && small.grants == big.grants && small.issues == big.issues
    && small.consumed <= big.consumed && small.rotated <= big.rotated && small.revoked <= big.revoked
  }

  lemma LessIsEnough(x: Store, small: History, big: History)
    requires StoreOk(x, big) && SaysLess(small, big)
    ensures StoreOk(x, small)
  {
    forall c | c in small.consumed
      ensures c !in x.codes
    {
      assert c in big.consumed;
    }
    forall c | c in small.rotated
      ensures c !in x.refresh
    {
      assert c in big.rotated;
    }
  }

  lemma RecordSaysLess(h: History, op: Op, answer: Answer, s: Store)
    ensures SaysLess(Record(h, op, None, s), Record(h, op, Some(answer), s))
  {
  }

  lemma RecordWeakens(x: Store, h: History, op: Op, answer: Answer, s: Store)
    requires StoreOk(x, Record(h, op, Some(answer), s))
    ensures StoreOk(x, Record(h, op, None, s))
  {
    hide StoreOk;
    RecordSaysLess(h, op, answer, s);
    LessIsEnough(x, Record(h, op, None, s), Record(h, op, Some(answer), s));
  }

  lemma SaveFits(d: Disk, plain: Store, op: Op, now: int, f: Fault, h: History)
    requires Ready(plain, op, h) && DiskFits(d, plain, now, h)
    ensures var a := Apply(Prune(plain, now), op, now);
            var answer := if f == Works then Some(a.answer) else None;
            DiskFits(SavePruned(d, a.store, now, f), if TookEffect(f) then Apply(plain, op, now).store else plain, now, Record(h, op, answer, plain))
  {
    var live := Prune(plain, now);
    PruneOk(plain, h, now);
    AttemptOk(d.file, h, op);
    ApplyCommutes(plain, op, now);
    ApplyOk(live, op, now, h);
    var a := Apply(live, op, now);
    PruneOk(a.store, Record(h, op, Some(a.answer), live), now);
    PruneAgain(a.store, now, now);
    RecordWeakens(Prune(a.store, now), h, op, a.answer, live);
    RecordSame(h, op, Some(a.answer), live, plain);
    RecordSame(h, op, None, live, plain);
  }

  lemma FitsLater(d: Disk, plain: Store, before: int, now: int, h: History, op: Op)
    requires before <= now && DiskFits(d, plain, before, h) && IsFresh(h, op)
    ensures DiskFits(d, plain, now, Attempt(h, op))
  {
    AlikeLater(d.file, plain, before, now);
    AttemptOk(d.file, h, op);
    if d.cache.Some? {
      AlikeLater(d.cache.value, plain, before, now);
      AttemptOk(d.cache.value, h, op);
    }
  }

  lemma LoadFits(d: Disk, plain: Store, clock: int, now: int, persist: bool, f: Fault, h: History)
    requires clock <= now && DiskFits(d, plain, clock, h) && StoreOk(plain, h)
    ensures var l := LoadPruned(d, now, persist, f);
            DiskFits(l.d, plain, now, h) && (l.data.Some? ==> l.data.value == Prune(plain, now))
  {
    LoadGivesLive(d, plain, clock, now, persist, f);
    PruneOk(plain, h, now);
    PruneAgain(plain, now, now);
  }

  /** A call whose body changed nothing that it saved, or that did not get to save. */
  lemma UnsavedFits(d: Disk, plain: Store, op: Op, now: int, h: History)
    requires Ready(plain, op, h) && DiskFits(d, plain, now, h)
    requires !Apply(Prune(plain, now), op, now).dirty
    ensures DiskFits(d, Apply(plain, op, now).store, now, Record(h, op, Some(Apply(Prune(plain, now), op, now).answer), plain))
  {
    var a := Apply(Prune(plain, now), op, now);
    ApplyCommutes(plain, op, now);
    assert a.store == Prune(plain, now) by { CleanApply(Prune(plain, now), op, now); }
    PruneAgain(plain, now, now);
    FitsLater(d, plain, now, now, h, op);
    CleanRecord(h, op, Prune(plain, now), now, plain);
  }

  /** A body that does not save changes nothing. */
  lemma CleanApply(s: Store, op: Op, now: int)
    requires !Apply(s, op, now).dirty
    ensures Apply(s, op, now).store == s
  {
    match op
    case Consume(code) => assert s.codes - {code} == s.codes;
    case RevokeAddress(address) => {
      assert s.grants - {} == s.grants;
      assert Without(s.codes, {}) == s.codes && Without(s.access, {}) == s.access && Without(s.refresh, {}) == s.refresh;
    }
    case _ => {}
  }

  /** An answer that the history records. */
  predicate IsSuccess(op: Op, answer: Answer) {
    (op.Consume? && answer.CodeRow?) || (op.Rotate? && answer.Rotated?) || (op.RevokeGrant? && answer == Revoked(true))
  }

  lemma CleanIsNoSuccess(s: Store, op: Op, now: int)
    requires !Apply(s, op, now).dirty
    ensures !IsSuccess(op, Apply(s, op, now).answer)
    ensures op.RevokeAddress? ==> GrantsOf(s, op.address) == {}
  {
  }

  lemma CleanRecord(h: History, op: Op, s: Store, now: int, plain: Store)
    requires !Apply(s, op, now).dirty && s.grants == plain.grants
    ensures Record(h, op, Some(Apply(s, op, now).answer), plain) == Attempt(h, op)
  {
    hide Apply;
    CleanIsNoSuccess(s, op, now);
    if op.RevokeAddress? {
      assert GrantsOf(s, op.address) == GrantsOf(plain, op.address);
      assert h.revoked + {} == h.revoked;
    }
  }

  /** What a call leaves: the file and the cache are in order and have the live rows of the plain file
      after the same call. */
  lemma ServeFits(d: Disk, plain: Store, clock: int, op: Op, now: int, onLoad: Fault, onSave: Fault, h: History)
    requires clock <= now && Ready(plain, op, h) && DiskFits(d, plain, clock, h)
    ensures var s := Serve(d, op, now, onLoad, onSave);
            DiskFits(s.d, if s.applied then Apply(plain, op, now).store else plain, now, Record(h, op, s.answer, plain))
  {
    if op.RevokeToken? && (op.caller.None? || op.caller.value == "") {
      FitsLater(d, plain, clock, now, h, op);
    } else {
      hide Apply, DiskFits, SavePruned, Record, LoadPruned, StoreOk;
      var l := LoadPruned(d, now, !op.RevokeToken?, onLoad);
      LoadFits(d, plain, clock, now, !op.RevokeToken?, onLoad, h);
      if l.data.None? {
        FitsLater(l.d, plain, now, now, h, op);
      } else if !Apply(Prune(plain, now), op, now).dirty {
        UnsavedFits(l.d, plain, op, now, h);
      } else {
        SaveFits(l.d, plain, op, now, onSave, h);
      }
    }
  }

  /** The answer of a call is that of its body on the live rows of the plain file. */
  lemma ServeAnswers(d: Disk, plain: Store, clock: int, op: Op, now: int, onLoad: Fault, onSave: Fault)
    requires clock <= now && Alike(d.file, plain, clock) && (d.cache.Some? ==> Alike(d.cache.value, plain, clock))
    ensures var s := Serve(d, op, now, onLoad, onSave);
            s.answer.Some? ==> s.applied && s.answer.value == Apply(Prune(plain, now), op, now).answer
  {
    LoadGivesLive(d, plain, clock, now, !op.RevokeToken?, onLoad);
  }

  lemma SameRecord(plain: Store, op: Op, now: int, h: History)
    requires KeysApart(plain)
    ensures Record(h, op, Some(Apply(Prune(plain, now), op, now).answer), plain) == Record(h, op, Some(Apply(plain, op, now).answer), plain)
  {
    AnswersAgree(plain, op, now);
  }

  ghost predicate Inv(w: World) {
    HistoryOk(w.h) && StoreOk(w.plain, w.h) && DiskFits(w.d, w.plain, w.clock, w.h)
  }

  lemma HistoryKeeps(plain: Store, op: Op, now: int, h: History, answer: Option<Answer>)
    requires Ready(plain, op, h) && (answer.Some? ==> answer.value == Apply(Prune(plain, now), op, now).answer)
    ensures HistoryOk(Record(h, op, answer, plain))
    ensures StoreOk(Apply(plain, op, now).store, Record(h, op, answer, plain))
    ensures answer.None? ==> StoreOk(plain, Record(h, op, answer, plain))
  {
    AttemptOk(plain, h, op);
    ApplyOk(plain, op, now, h);
    if answer.Some? {
      RecordIsOk(plain, op, now, h);
      SameRecord(plain, op, now, h);
    } else {
      RecordWeakens(Apply(plain, op, now).store, h, op, Apply(plain, op, now).answer, plain);
    }
  }

  lemma InvSaysAlike(w: World)
    requires Inv(w)
    ensures Alike(w.d.file, w.plain, w.clock) && (w.d.cache.Some? ==> Alike(w.d.cache.value, w.plain, w.clock))
  {
  }

  lemma CallKeepsInv(w: World, op: Op, now: int, onLoad: Fault, onSave: Fault)
    requires Inv(w) && IsFresh(w.h, op) && w.clock <= now
    ensures Inv(Called(w, op, now, onLoad, onSave))
  {
    hide StoreOk, HistoryOk, DiskFits, Serve, Apply, Record, Alike;
    InvSaysAlike(w);
    var s := Serve(w.d, op, now, onLoad, onSave);
    ServeAnswers(w.d, w.plain, w.clock, op, now, onLoad, onSave);
    ServeFits(w.d, w.plain, w.clock, op, now, onLoad, onSave, w.h);
    HistoryKeeps(w.plain, op, now, w.h, s.answer);
  }

  lemma RestartKeepsInv(w: World)
    requires Inv(w)
    ensures Inv(w.(d := w.d.(cache := None)))
  {
  }

  lemma StepKeepsInv(w: World, e: Event)
    requires Inv(w) && (e.Call? ==> IsFresh(w.h, e.op))
    ensures Inv(Step(w, e))
  {
    hide Inv, Called;
    match e
    case Restart => RestartKeepsInv(w);
    case Call(op, wait, onLoad, onSave) => CallKeepsInv(w, op, w.clock + wait, onLoad, onSave);
  }

  lemma {:induction false} RunKeepsInv(w: World, events: seq<Event>)
    requires Inv(w) && FreshRun(w, events)
    ensures Inv(Run(w, events))
    decreases |events|
  {
    if events != [] {
      StepKeepsInv(w, events[0]);
      RunKeepsInv(Step(w, events[0]), events[1..]);
    }
  }

  lemma ReachedIsOk(events: seq<Event>)
    requires FreshRun(Start, events)
    ensures Inv(Run(Start, events))
  {
    assert Bounded(map[], multiset{}) by {
      forall g: GrantId
        ensures |RefreshOf(map[], g)| <= multiset{}[g]
      {
        assert RefreshOf(map[], g) == {};
      }
    }
    RunKeepsInv(Start, events);
  }

  // ------------------------------------------------------------------ the main results

  lemma CallAgrees(w: World, op: Op, now: int, onLoad: Fault, onSave: Fault)
    requires Inv(w) && w.clock <= now
    ensures var answer := Serve(w.d, op, now, onLoad, onSave).answer;
            answer.Some? ==> (UpToExpiry(answer.value, Apply(w.plain, op, now).answer) <==> !(op.RevokeToken? && OwnsExpired(w.plain, op, now)))
  {
    ServeAnswers(w.d, w.plain, w.clock, op, now, onLoad, onSave);
    AnswersAgree(w.plain, op, now);
  }

  /** After any run, with cache hits, prunes in memory, failed writes and restarts, the next call that
      returns answers as the plain file would, an expired row counting as a missing one. The one
      exception is a client revoking its own expired token. */
  lemma AgreesWithPlainFile(events: seq<Event>, op: Op, wait: nat, onLoad: Fault, onSave: Fault)
    requires FreshRun(Start, events)
    ensures var w := Run(Start, events);
            var now := w.clock + wait;
            var answer := Serve(w.d, op, now, onLoad, onSave).answer;
            answer.Some? ==> (UpToExpiry(answer.value, Apply(w.plain, op, now).answer) <==> !(op.RevokeToken? && OwnsExpired(w.plain, op, now)))
  {
    hide Inv, Serve, Apply, OwnsExpired;
    ReachedIsOk(events);
    var w := Run(Start, events);
    CallAgrees(w, op, w.clock + wait, onLoad, onSave);
  }

  /** The exception happens: a token whose hour is over is deleted in the plain file, and not found by
      the store, whose load has pruned it. */
  lemma ExpiredRevocationDiffers(issued: int)
    ensures var s := Store(map[0 := Grant("app", "ada", issued)], map[], map[1 := Row(0, "ada", "mcp", issued + ACCESS_TTL, "")], map[]);
            var op := RevokeToken(1, Some("app"));
            var now := issued + ACCESS_TTL;
            && Serve(Disk(s, None), op, now, Works, Works).answer == Some(Revoked(false))
            && Apply(s, op, now).answer == Revoked(true)
  {
    var s := Store(map[0 := Grant("app", "ada", issued)], map[], map[1 := Row(0, "ada", "mcp", issued + ACCESS_TTL, "")], map[]);
    assert 1 !in Prune(s, issued + ACCESS_TTL).access && 1 !in Prune(s, issued + ACCESS_TTL).refresh;
  }

  /** The expired answers of the source are never given: the load has dropped the row by then. */
  lemma ExpiredIsNeverAnswered(events: seq<Event>, op: Op, wait: nat, onLoad: Fault, onSave: Fault)
    requires FreshRun(Start, events)
    ensures var w := Run(Start, events);
            Serve(w.d, op, w.clock + wait, onLoad, onSave).answer != Some(Expired)
  {
    hide Inv, Serve, Apply, Prune, Alike;
    ReachedIsOk(events);
    var w := Run(Start, events);
    InvSaysAlike(w);
    ServeAnswers(w.d, w.plain, w.clock, op, w.clock + wait, onLoad, onSave);
    PrunedIsNotExpired(w.plain, op, w.clock + wait);
  }

  lemma PrunedIsNotExpired(s: Store, op: Op, now: int)
    ensures Apply(Prune(s, now), op, now).answer != Expired
  {
  }

  /** Over every run: each code is consumed and each refresh token rotated successfully at most once; every
      row of the file points to an existing grant; and a grant never has more refresh rows than it had
      issueTokenPair calls. */
  lemma NothingIsUsedTwice(events: seq<Event>)
    requires FreshRun(Start, events)
    ensures var w := Run(Start, events);
            && (forall c :: c in w.h.consumed ==> w.h.consumed[c] == 1)
            && (forall c :: c in w.h.rotated ==> w.h.rotated[c] == 1)
            && References(w.d.file)
            && (forall g: GrantId :: |RefreshOf(w.d.file.refresh, g)| <= w.h.issues[g])
  {
    ReachedIsOk(events);
  }

  function GrantOf(answer: Answer): Option<GrantId> {
    match answer
    case CodeRow(row) => Some(row.grant)
    case Rotated(row) => Some(row.grant)
    case Access(row) => Some(row.grant)
    case _ => None
  }

  lemma AcceptedIsGranted(s: Store, op: Op, now: int)
    requires References(s)
    ensures var a := Apply(s, op, now).answer; GrantOf(a).Some? ==> GrantOf(a).value in s.grants
  {
  }

  lemma CallAcceptsNoRevoked(w: World, op: Op, now: int, onLoad: Fault, onSave: Fault)
    requires Inv(w) && w.clock <= now
    ensures var answer := Serve(w.d, op, now, onLoad, onSave).answer;
            answer.Some? && GrantOf(answer.value).Some? ==> GrantOf(answer.value).value !in w.h.revoked
  {
    ServeAnswers(w.d, w.plain, w.clock, op, now, onLoad, onSave);
    AcceptedIsGranted(Prune(w.plain, now), op, now);
  }

  /** After a grant was revoked no code and no token of it is accepted again, by any call in any run. */
  lemma RevokedStaysRevoked(events: seq<Event>, op: Op, wait: nat, onLoad: Fault, onSave: Fault)
    requires FreshRun(Start, events)
    ensures var w := Run(Start, events);
            var answer := Serve(w.d, op, w.clock + wait, onLoad, onSave).answer;
            answer.Some? && GrantOf(answer.value).Some? ==> GrantOf(answer.value).value !in w.h.revoked
  {
    hide Inv, Serve;
    ReachedIsOk(events);
    var w := Run(Start, events);
    CallAcceptsNoRevoked(w, op, w.clock + wait, onLoad, onSave);
  }

  lemma RefusedKeepsAll(d: Disk, plain: Store, clock: int, op: Op, now: int, onLoad: Fault, onSave: Fault)
    requires clock <= now && Alike(d.file, plain, clock) && (d.cache.Some? ==> Alike(d.cache.value, plain, clock))
    requires op.Rotate? && Serve(d, op, now, onLoad, onSave).answer in {Some(AudMismatch), Some(ClientMismatch)}
    ensures Alike(Serve(d, op, now, onLoad, onSave).d.file, d.file, now)
  {
    LoadGivesLive(d, plain, clock, now, true, onLoad);
    AlikeLater(d.file, plain, clock, now);
  }

  /** A rotation with the wrong audience or client changes no live row, so it grants nothing and the
      presented token stays good. */
  lemma MismatchChangesNothing(events: seq<Event>, op: Op, wait: nat, onLoad: Fault, onSave: Fault)
    requires FreshRun(Start, events) && op.Rotate?
    ensures var w := Run(Start, events);
            var s := Serve(w.d, op, w.clock + wait, onLoad, onSave);
            s.answer in {Some(AudMismatch), Some(ClientMismatch)} ==> Alike(s.d.file, w.d.file, w.clock + wait)
  {
    hide Inv, Serve, Alike;
    ReachedIsOk(events);
    var w := Run(Start, events);
    if Serve(w.d, op, w.clock + wait, onLoad, onSave).answer in {Some(AudMismatch), Some(ClientMismatch)} {
      InvSaysAlike(w);
      RefusedKeepsAll(w.d, w.plain, w.clock, op, w.clock + wait, onLoad, onSave);
    }
  }

  // ------------------------------------------------------------------ what a secret is good for

  datatype Kind = CodeKind | AccessKind | RefreshKind

  function TableOf(s: Store, kind: Kind): Table {
    match kind
    case CodeKind => s.codes
    case AccessKind => s.access
    case RefreshKind => s.refresh
  }

  /** A secret, its row, and whose grant it hangs on. */
  datatype Item = Item(kind: Kind, secret: Hash, row: Row, client: string, home: string)

  predicate Keeps(s: Store, i: Item) {
    && i.secret in TableOf(s, i.kind) && TableOf(s, i.kind)[i.secret] == i.row
    && i.row.grant in s.grants && s.grants[i.row.grant].client == i.client && s.grants[i.row.grant].address == i.home
  }

  /** The operation neither uses the secret up nor revokes it, its grant or the grant's address. */
  predicate Spares(op: Op, i: Item) {
    match op
    case Consume(code) => i.kind != CodeKind || code != i.secret
    case Rotate(token, _, _, _, _) => i.kind != RefreshKind || token != i.secret
    case RevokeToken(token, _) => i.kind == CodeKind || token != i.secret
    case RevokeGrant(g) => g != i.row.grant
    case RevokeAddress(address) => address != i.home
    case _ => true
  }

  predicate AllSpare(events: seq<Event>, i: Item) {
    forall k :: 0 <= k < |events| && events[k].Call? ==> Spares(events[k].op, i)
  }

  lemma ApplySpares(s: Store, op: Op, now: int, h: History, i: Item)
    requires Known(s, h) && IsFresh(h, op) && Keeps(s, i) && Spares(op, i)
    ensures Keeps(Apply(s, op, now).store, i)
  {
    assert i.secret in h.hashes && i.row.grant in h.grants;
  }

  lemma {:induction false} RunSpares(w: World, events: seq<Event>, i: Item)
    requires Inv(w) && FreshRun(w, events) && Keeps(w.plain, i) && AllSpare(events, i)
    ensures Keeps(Run(w, events).plain, i)
    decreases |events|
  {
    hide Inv, Keeps, Step, Spares, IsFresh;
    if events != [] {
      var e, rest := events[0], events[1..];
      assert forall k :: 0 <= k < |rest| ==> rest[k] == events[k + 1];
      StepKeepsInv(w, e);
      StepSpares(w, e, i);
      RunSpares(Step(w, e), rest, i);
    }
  }

  lemma StepSpares(w: World, e: Event, i: Item)
    requires Inv(w) && Keeps(w.plain, i) && (e.Call? ==> IsFresh(w.h, e.op) && Spares(e.op, i))
    ensures Keeps(Step(w, e).plain, i)
  {
    hide DiskFits, HistoryOk, Keeps, Spares, IsFresh, Apply, Serve, Record;
    if e.Call? { ApplySpares(w.plain, e.op, w.clock + e.wait, w.h, i); }
  }

  /** The answer of a call that presents the secret: its row while it is live, and not found after that. */
  function AnswerFor(i: Item, op: Op, now: int): Answer {
    if now >= i.row.expires then NotFound
    else if i.kind == CodeKind then CodeRow(i.row)
    else if i.kind == AccessKind then Access(i.row)
    else if op.Rotate? && op.wanted.Some? && op.wanted.value != i.row.aud then AudMismatch
    else if op.Rotate? && op.caller.Some? && op.caller.value != i.client then ClientMismatch
    else Rotated(i.row)
  }

  predicate Presents(op: Op, i: Item) {
    match i.kind
    case CodeKind => op == Consume(i.secret) || op == Peek(i.secret)
    case AccessKind => op == Lookup(i.secret)
    case RefreshKind => op.Rotate? && op.token == i.secret
  }

  lemma KeptAnswers(s: Store, i: Item, op: Op, now: int)
    requires Keeps(s, i) && Presents(op, i)
    ensures Apply(Prune(s, now), op, now).answer == AnswerFor(i, op, now)
  {
  }

  /** The time of a call, and its answer: None if it threw or the process died. */
  function TimeOf(w: World, e: Event): int
    requires e.Call?
  {
    w.clock + e.wait
  }

  function AnswerOf(w: World, e: Event): Option<Answer>
    requires e.Call?
  {
    Serve(w.d, e.op, TimeOf(w, e), e.onLoad, e.onSave).answer
  }

  /** The call gives this answer, if it does not throw or die. */
  predicate Gives(v: World, e: Event, answer: Answer)
    requires e.Call?
  {
    var r := AnswerOf(v, e);
    r.None? || r.value == answer
  }

  /** In the world `v` a call that presents the secret gets it back exactly until it expires. */
  predicate IsGood(v: World, i: Item, again: Event) {
    again.Call? && Presents(again.op, i) ==> Gives(v, again, AnswerFor(i, again.op, TimeOf(v, again)))
  }

  /** A secret in the plain file is good, after any calls that spare it. */
  lemma KeptIsGood(w: World, more: seq<Event>, i: Item, again: Event)
    requires Inv(w) && FreshRun(w, more) && Keeps(w.plain, i) && AllSpare(more, i)
    ensures IsGood(Run(w, more), i, again)
  {
    hide Inv, Serve, Alike, Apply, Keeps, AnswerFor;
    RunSpares(w, more, i);
    RunKeepsInv(w, more);
    var v := Run(w, more);
    if again.Call? && Presents(again.op, i) {
      InvSaysAlike(v);
      ServeAnswers(v.d, v.plain, v.clock, again.op, TimeOf(v, again), again.onLoad, again.onSave);
      KeptAnswers(v.plain, i, again.op, TimeOf(v, again));
    }
  }

  /** A call that returned has taken effect on the plain file, with the same success. */
  lemma ReturnedIsApplied(w: World, e: Event)
    requires Inv(w) && e.Call? && AnswerOf(w, e).Some?
    ensures Step(w, e).plain == Apply(w.plain, e.op, TimeOf(w, e)).store
    ensures AnswerOf(w, e).value == Apply(Prune(w.plain, TimeOf(w, e)), e.op, TimeOf(w, e)).answer
  {
    hide Inv, Serve, Apply, Alike, Record, Prune;
    InvSaysAlike(w);
    ServeAnswers(w.d, w.plain, w.clock, e.op, TimeOf(w, e), e.onLoad, e.onSave);
  }

  /** A run, a call that returns, and a run after it. */
  predicate IsStory(events: seq<Event>, e: Event, more: seq<Event>) {
    FreshRun(Start, events) && e.Call? && var w := Run(Start, events);
    IsFresh(w.h, e.op) && AnswerOf(w, e).Some? && FreshRun(Step(w, e), more)
  }

  /** What a successful call made a pair for. */
  datatype Purpose = Purpose(grant: GrantId, address: string, aud: string)

  function MadeFor(op: Op, answer: Answer): Option<Purpose> {
    if op.Issue? && answer == Issued then Some(Purpose(op.grant, op.address, op.aud))
    else if op.Rotate? && answer.Rotated? then Some(Purpose(answer.row.grant, answer.row.address, answer.row.aud))
    else None
  }

  function GrantIn(s: Store, g: GrantId): Grant { if g in s.grants then s.grants[g] else Grant("", "", 0) }

  function AccessItem(s: Store, h: Hash, p: Purpose, now: int): Item {
    Item(AccessKind, h, Row(p.grant, p.address, p.aud, now + ACCESS_TTL, ""), GrantIn(s, p.grant).client, GrantIn(s, p.grant).address)
  }

  function RefreshItem(s: Store, h: Hash, p: Purpose, now: int): Item {
    Item(RefreshKind, h, Row(p.grant, p.address, p.aud, now + REFRESH_TTL, ""), GrantIn(s, p.grant).client, GrantIn(s, p.grant).address)
  }

  lemma AddPairKeeps(s: Store, p: Purpose, a: Hash, r: Hash, now: int)
    requires p.grant in s.grants
    ensures var t := AddPair(s, p.grant, p.address, p.aud, a, r, now);
            && Keeps(t, AccessItem(s, a, p, now)) && Keeps(t, RefreshItem(s, r, p, now))
            && t.grants == s.grants[p.grant := s.grants[p.grant].(lastUsed := now)]
  {
  }

  lemma PairIsKept(s: Store, op: Op, now: int)
    requires (op.Issue? || op.Rotate?) && MadeFor(op, Apply(Prune(s, now), op, now).answer).Some?
    ensures var p := MadeFor(op, Apply(Prune(s, now), op, now).answer).value;
            && p.grant in s.grants
            && var t := Apply(s, op, now).store;
               && Keeps(t, AccessItem(s, op.newAccess, p, now)) && Keeps(t, RefreshItem(s, op.newRefresh, p, now))
               && t.grants == s.grants[p.grant := s.grants[p.grant].(lastUsed := now)]
  {
    hide Keeps, AccessItem, RefreshItem, AddPair;
    var p := MadeFor(op, Apply(Prune(s, now), op, now).answer).value;
    if op.Issue? {
      AddPairKeeps(s, p, op.newAccess, op.newRefresh, now);
    } else {
      var cut := s.(refresh := s.refresh - {op.token});
      AddPairKeeps(cut, p, op.newAccess, op.newRefresh, now);
      SameItems(s, cut, op.newAccess, op.newRefresh, p, now);
    }
  }

  lemma SameItems(s: Store, t: Store, a: Hash, r: Hash, p: Purpose, now: int)
    requires s.grants == t.grants
    ensures AccessItem(s, a, p, now) == AccessItem(t, a, p, now) && RefreshItem(s, r, p, now) == RefreshItem(t, r, p, now)
  {
  }

  /** After any run, a call that issued a pair or rotated a token into one, and any later run that spares it:
      the access token is accepted for its grant, address and audience exactly until its hour is over, and the
      refresh token rotates exactly until its thirty days are, for the right audience and client only. */
  lemma IssuedPairWorks(events: seq<Event>, e: Event, more: seq<Event>, again: Event)
    requires IsStory(events, e, more) && (e.op.Issue? || e.op.Rotate?)
    requires MadeFor(e.op, AnswerOf(Run(Start, events), e).value).Some?
    ensures var w := Run(Start, events);
            var p := MadeFor(e.op, AnswerOf(w, e).value).value;
            var a := AccessItem(w.plain, e.op.newAccess, p, TimeOf(w, e));
            var r := RefreshItem(w.plain, e.op.newRefresh, p, TimeOf(w, e));
            && p.grant in w.plain.grants
            && Step(w, e).plain.grants == w.plain.grants[p.grant := w.plain.grants[p.grant].(lastUsed := TimeOf(w, e))]
            && (AllSpare(more, a) ==> IsGood(Run(Step(w, e), more), a, again))
            && (AllSpare(more, r) ==> IsGood(Run(Step(w, e), more), r, again))
  {
    hide Inv, Serve, Step, IsFresh, Apply, Keeps, AccessItem, RefreshItem, IsGood, AllSpare;
    ReachedIsOk(events);
    var w := Run(Start, events);
    StepKeepsInv(w, e);
    ReturnedIsApplied(w, e);
    PairIsKept(w.plain, e.op, TimeOf(w, e));
    var p := MadeFor(e.op, AnswerOf(w, e).value).value;
    var a := AccessItem(w.plain, e.op.newAccess, p, TimeOf(w, e));
    var r := RefreshItem(w.plain, e.op.newRefresh, p, TimeOf(w, e));
    if AllSpare(more, a) { KeptIsGood(Step(w, e), more, a, again); }
    if AllSpare(more, r) { KeptIsGood(Step(w, e), more, r, again); }
  }

  /** After any run, a call that made a grant and its code, and any later run that spares it: the code answers
      with what it was made for exactly until its ten minutes are over. */
  lemma CodeWorks(events: seq<Event>, e: Event, more: seq<Event>, again: Event)
    requires IsStory(events, e, more) && e.op.Create?
    ensures var w := Run(Start, events);
            var row := Row(e.op.id, e.op.address, e.op.resource, TimeOf(w, e) + CODE_TTL, e.op.bound);
            var i := Item(CodeKind, e.op.code, row, e.op.client, e.op.address);
            AllSpare(more, i) ==> IsGood(Run(Step(w, e), more), i, again)
  {
    hide Inv, Serve, Step, IsFresh, IsGood, AllSpare;
    ReachedIsOk(events);
    var w := Run(Start, events);
    StepKeepsInv(w, e);
    ReturnedIsApplied(w, e);
    var row := Row(e.op.id, e.op.address, e.op.resource, TimeOf(w, e) + CODE_TTL, e.op.bound);
    var i := Item(CodeKind, e.op.code, row, e.op.client, e.op.address);
    assert Keeps(Apply(w.plain, e.op, TimeOf(w, e)).store, i);
    if AllSpare(more, i) { KeptIsGood(Step(w, e), more, i, again); }
  }

  /** What has been used up. */
  predicate UsedUp(h: History, kind: Kind, secret: Hash) {
    (kind == CodeKind && secret in h.consumed) || (kind == RefreshKind && secret in h.rotated)
  }

  lemma StepGrows(w: World, e: Event, kind: Kind, secret: Hash)
    requires UsedUp(w.h, kind, secret)
    ensures UsedUp(Step(w, e).h, kind, secret)
  {
    hide Serve, Apply;
  }

  lemma {:induction false} RunGrows(w: World, events: seq<Event>, kind: Kind, secret: Hash)
    requires UsedUp(w.h, kind, secret)
    ensures UsedUp(Run(w, events).h, kind, secret)
    decreases |events|
  {
    hide UsedUp, Step;
    if events != [] {
      StepGrows(w, events[0], kind, secret);
      RunGrows(Step(w, events[0]), events[1..], kind, secret);
    }
  }

  lemma UsedUpIsMissing(v: World, i: Item, again: Event)
    requires Inv(v) && UsedUp(v.h, i.kind, i.secret) && again.Call? && Presents(again.op, i)
    ensures Gives(v, again, NotFound)
  {
    hide Serve, Prune;
    InvSaysAlike(v);
    ServeAnswers(v.d, v.plain, v.clock, again.op, TimeOf(v, again), again.onLoad, again.onSave);
    SpentIsMissing(v, i, again);
  }

  lemma SpentIsMissing(v: World, i: Item, again: Event)
    requires Inv(v) && UsedUp(v.h, i.kind, i.secret) && again.Call? && Presents(again.op, i)
    ensures Apply(Prune(v.plain, TimeOf(v, again)), again.op, TimeOf(v, again)).answer == NotFound
  {
  }

  /** A call that consumed this code or rotated this refresh token. */
  predicate UsesUp(op: Op, answer: Answer, i: Item) {
    (i.kind == CodeKind && op == Consume(i.secret) && answer.CodeRow?)
    || (i.kind == RefreshKind && op.Rotate? && op.token == i.secret && answer.Rotated?)
  }

  /** A code or refresh token that a call has used up is not found by any later call, in any run. */
  lemma UsedUpIsGone(events: seq<Event>, e: Event, more: seq<Event>, again: Event, i: Item)
    requires IsStory(events, e, more) && UsesUp(e.op, AnswerOf(Run(Start, events), e).value, i)
    requires again.Call? && Presents(again.op, i)
    ensures Gives(Run(Step(Run(Start, events), e), more), again, NotFound)
  {
    ReachedIsOk(events);
    var w := Run(Start, events);
    assert UsedUp(Step(w, e).h, i.kind, i.secret) by { UsingIsRecorded(w, e, i); }
    hide Inv, Step, IsFresh, AnswerOf, Presents, Gives;
    StepKeepsInv(w, e);
    RunGrows(Step(w, e), more, i.kind, i.secret);
    RunKeepsInv(Step(w, e), more);
    UsedUpIsMissing(Run(Step(w, e), more), i, again);
  }

  lemma UsingIsRecorded(w: World, e: Event, i: Item)
    requires e.Call? && AnswerOf(w, e).Some? && UsesUp(e.op, AnswerOf(w, e).value, i)
    ensures UsedUp(Step(w, e).h, i.kind, i.secret)
  {
    hide Serve, Apply;
  }

  // ------------------------------------------------------------------ what an answer says

  /** A token of this table that has not expired, and whose grant belongs to the client. */
  predicate LiveTokenOf(s: Store, t: Table, token: Hash, client: string, now: int) {
    && token in t && t[token].expires > now
    && t[token].grant in s.grants && s.grants[t[token].grant].client == client
  }

  /** The client presents a token of its own. */
  predicate PresentsOwn(s: Store, op: Op, now: int)
    requires op.RevokeToken?
  {
    op.caller.Some? && op.caller.value != "" &&
    (LiveTokenOf(s, s.access, op.token, op.caller.value, now) || LiveTokenOf(s, s.refresh, op.token, op.caller.value, now))
  }

  /** The answer in terms of what is stored: a grant is made on request, a pair is issued exactly for a grant that
      exists, a grant is revoked exactly if it exists, all grants of an address are, and a token exactly if it
      is live and its client presents it; a secret that is not there or has expired is not found. */
  predicate IsRight(s: Store, op: Op, now: int, answer: Answer) {
    && (op.Create? ==> answer == Created)
    && (op.Issue? ==> answer == if op.grant in s.grants then Issued else GrantMissing)
    && (op.RevokeGrant? ==> answer == Revoked(op.grant in s.grants))
    && (op.RevokeAddress? ==> answer == RevokedMany(|set g | g in s.grants && s.grants[g].address == op.address|))
    && (op.RevokeToken? ==> answer == Revoked(PresentsOwn(s, op, now)))
    && (op.Lookup? && !(op.token in s.access && s.access[op.token].expires > now) ==> answer == NotFound)
    && (op.Rotate? && !(op.token in s.refresh && s.refresh[op.token].expires > now) ==> answer == NotFound)
    && ((op.Consume? || op.Peek?) && !(op.code in s.codes && s.codes[op.code].expires > now) ==> answer == NotFound)
  }

  lemma PrunedAnswers(s: Store, op: Op, now: int)
    requires References(s) && KeysApart(s)
    ensures IsRight(s, op, now, Apply(Prune(s, now), op, now).answer)
  {
    if op.RevokeAddress? {
      assert GrantsOf(Prune(s, now), op.address) == set g | g in s.grants && s.grants[g].address == op.address;
    }
  }

  /** A call that no fault disturbs answers. */
  lemma UndisturbedCallAnswers(w: World, e: Event)
    requires e.Call? && e.onLoad == Works && e.onSave == Works
    ensures AnswerOf(w, e).Some?
  {
  }

  /** After any run every call that answers gives the right answer. */
  lemma AnswersAreRight(events: seq<Event>, e: Event)
    requires FreshRun(Start, events) && e.Call? && AnswerOf(Run(Start, events), e).Some?
    ensures var w := Run(Start, events); IsRight(w.plain, e.op, TimeOf(w, e), AnswerOf(w, e).value)
  {
    hide Serve, Apply, Alike, Prune, FreshRun, IsRight;
    ReachedIsOk(events);
    var w := Run(Start, events);
    ReturnedIsApplied(w, e);
    PrunedAnswers(w.plain, e.op, TimeOf(w, e));
  }

  lemma StepRevokes(w: World, e: Event, g: GrantId)
    requires g in w.h.revoked
    ensures g in Step(w, e).h.revoked
  {
    hide Serve, Apply;
  }

  lemma {:induction false} RunRevokes(w: World, events: seq<Event>, g: GrantId)
    requires g in w.h.revoked
    ensures g in Run(w, events).h.revoked
    decreases |events|
  {
    hide Step;
    if events != [] {
      StepRevokes(w, events[0], g);
      RunRevokes(Step(w, events[0]), events[1..], g);
    }
  }

  /** The call revokes this grant: by its id, or by its address. */
  predicate RevokesGrant(s: Store, op: Op, g: GrantId) {
    g in s.grants && (op == RevokeGrant(g) || (op.RevokeAddress? && s.grants[g].address == op.address))
  }

  /** After a call that revoked a grant and any later run no code and no token of the grant is accepted. */
  lemma RevokedGrantIsGone(events: seq<Event>, e: Event, more: seq<Event>, again: Event, g: GrantId)
    requires IsStory(events, e, more) && RevokesGrant(Run(Start, events).plain, e.op, g) && again.Call?
    ensures var v := Run(Step(Run(Start, events), e), more);
            AnswerOf(v, again).Some? ==> GrantOf(AnswerOf(v, again).value) != Some(g)
  {
    ReachedIsOk(events);
    var w := Run(Start, events);
    AnswersAreRight(events, e);
    hide Inv, Step, IsFresh, Serve, Apply, IsRight, RevokesGrant, AnswerOf;
    RevokingIsRecorded(w, e, g);
    StepKeepsInv(w, e);
    RunRevokes(Step(w, e), more, g);
    RunKeepsInv(Step(w, e), more);
    LaterAcceptsNone(Run(Step(w, e), more), again, g);
  }

  lemma RevokingIsRecorded(w: World, e: Event, g: GrantId)
    requires e.Call? && RevokesGrant(w.plain, e.op, g) && AnswerOf(w, e).Some? && IsRight(w.plain, e.op, TimeOf(w, e), AnswerOf(w, e).value)
    ensures g in Step(w, e).h.revoked
  {
    hide Serve, Apply, PresentsOwn;
  }

  lemma LaterAcceptsNone(v: World, again: Event, g: GrantId)
    requires Inv(v) && again.Call? && g in v.h.revoked
    ensures AnswerOf(v, again).Some? ==> GrantOf(AnswerOf(v, again).value) != Some(g)
  {
    hide Inv, Serve;
    CallAcceptsNoRevoked(v, again.op, TimeOf(v, again), again.onLoad, again.onSave);
  }

  // ------------------------------------------------------------------ when the file is written

  predicate HasExpired(s: Store, now: int) {
    || (exists h :: h in s.codes && s.codes[h].expires <= now)
    || (exists h :: h in s.access && s.access[h].expires <= now)
    || (exists h :: h in s.refresh && s.refresh[h].expires <= now)
  }

  lemma PruneChangesExactly(s: Store, now: int)
    ensures Prune(s, now) == s <==> !HasExpired(s, now)
  {
    if !HasExpired(s, now) {
      assert Live(s.codes, now) == s.codes && Live(s.access, now) == s.access && Live(s.refresh, now) == s.refresh;
    }
  }

  /** A load writes exactly when it finds no cache, may write, and some row of the file has expired; it fails
      exactly when that write does. A load that does not fail leaves a cache behind, of what it gives. */
  lemma LoadWritesExactly(d: Disk, now: int, persist: bool, f: Fault)
    ensures var l := LoadPruned(d, now, persist, f);
            var writes := d.cache.None? && persist && HasExpired(d.file, now);
            && l.d.file == (if writes && TookEffect(f) then Prune(d.file, now) else d.file)
            && (l.data.None? <==> writes && f != Works) && l.d.cache == l.data
            && (l.data.Some? ==> !HasExpired(l.data.value, now))
  {
    PruneChangesExactly(d.file, now);
    if d.cache.Some? { NoneLeft(d.cache.value, now); }
    NoneLeft(d.file, now);
  }

  lemma NoneLeft(s: Store, now: int)
    ensures !HasExpired(Prune(s, now), now)
  {
  }

  /** The answers of calls that have nothing to save. */
  predicate NothingToSave(op: Op, answer: Answer) {
    op.Peek? || op.Lookup? || answer in {NotFound, GrantMissing, AudMismatch, ClientMismatch, Revoked(false), RevokedMany(0)}
  }

  lemma ApplySaves(s: Store, op: Op, now: int)
    requires !HasExpired(s, now)
    ensures Apply(s, op, now).dirty <==> !NothingToSave(op, Apply(s, op, now).answer)
  {
    if op.RevokeAddress? && GrantsOf(s, op.address) != {} {
      var g :| g in GrantsOf(s, op.address);
      assert |GrantsOf(s, op.address)| > 0;
    }
  }

  /** Apart from what a load prunes, a call writes exactly when it has something to save; then the cache is the
      file if the write worked, and is gone if it did not. A call with nothing to save never fails to write. */
  lemma CallWritesExactly(d: Disk, op: Op, now: int, onLoad: Fault, onSave: Fault)
    requires !(op.RevokeToken? && (op.caller.None? || op.caller.value == ""))
    ensures var l := LoadPruned(d, now, !op.RevokeToken?, onLoad);
            var s := Serve(d, op, now, onLoad, onSave);
            && (l.data.None? ==> s.d == l.d && s.answer.None?)
            && (l.data.Some? ==>
                  var a := Apply(l.data.value, op, now);
                  && (NothingToSave(op, a.answer) ==> s.d == l.d && s.answer == Some(a.answer))
                  && (!NothingToSave(op, a.answer) ==>
                        && s.d.file == (if TookEffect(onSave) then Prune(a.store, now) else l.d.file)
                        && s.d.cache == (if onSave == Works then Some(s.d.file) else None)
                        && s.answer == if onSave == Works then Some(a.answer) else None))
  {
    LoadWritesExactly(d, now, !op.RevokeToken?, onLoad);
    var l := LoadPruned(d, now, !op.RevokeToken?, onLoad);
    if l.data.Some? { ApplySaves(l.data.value, op, now); }
    hide Apply, LoadPruned, HasExpired, NothingToSave, Prune;
  }

  // ------------------------------------------------------------------ a revoked token

  /** A secret that was made once and is in neither token table. */
  predicate IsAbsent(w: World, token: Hash) {
    token in w.h.hashes && token !in w.plain.access && token !in w.plain.refresh
  }

  lemma ApplyKeepsAbsent(s: Store, op: Op, now: int, token: Hash)
    requires token !in s.access && token !in s.refresh && token !in NewHashes(op)
    ensures token !in Apply(s, op, now).store.access && token !in Apply(s, op, now).store.refresh
  {
  }

  lemma StepKeepsAbsent(w: World, e: Event, token: Hash)
    requires IsAbsent(w, token) && (e.Call? ==> IsFresh(w.h, e.op))
    ensures IsAbsent(Step(w, e), token)
  {
    hide Serve, Apply;
    if e.Call? { ApplyKeepsAbsent(w.plain, e.op, w.clock + e.wait, token); }
  }

  lemma {:induction false} RunKeepsAbsent(w: World, events: seq<Event>, token: Hash)
    requires IsAbsent(w, token) && FreshRun(w, events)
    ensures IsAbsent(Run(w, events), token)
    decreases |events|
  {
    hide IsAbsent, Step, IsFresh;
    if events != [] {
      StepKeepsAbsent(w, events[0], token);
      RunKeepsAbsent(Step(w, events[0]), events[1..], token);
    }
  }

  lemma RevokingTakesAway(w: World, e: Event)
    requires Inv(w) && e.Call? && e.op.RevokeToken? && AnswerOf(w, e) == Some(Revoked(true))
    ensures IsAbsent(Step(w, e), e.op.token)
  {
    ReturnedIsApplied(w, e);
    PrunedAnswers(w.plain, e.op, TimeOf(w, e));
    RevokedIsDeleted(w.plain, e.op, TimeOf(w, e));
    hide Serve, Apply, Alike, Prune;
  }

  lemma RevokedIsDeleted(s: Store, op: Op, now: int)
    requires op.RevokeToken? && PresentsOwn(s, op, now) && KeysApart(s)
    ensures op.token !in Apply(s, op, now).store.access && op.token !in Apply(s, op, now).store.refresh
  {
  }

  /** After a call that answered that a token was revoked, and any later run: no lookup accepts it, no rotation
      finds it, and it cannot be revoked again. */
  lemma RevokedTokenIsGone(events: seq<Event>, e: Event, more: seq<Event>, again: Event)
    requires IsStory(events, e, more) && e.op.RevokeToken? && AnswerOf(Run(Start, events), e) == Some(Revoked(true)) && again.Call?
    ensures var v := Run(Step(Run(Start, events), e), more);
            && (again.op == Lookup(e.op.token) ==> Gives(v, again, NotFound))
            && (again.op.Rotate? && again.op.token == e.op.token ==> Gives(v, again, NotFound))
            && (again.op.RevokeToken? && again.op.token == e.op.token ==> Gives(v, again, Revoked(false)))
  {
    ReachedIsOk(events);
    var w := Run(Start, events);
    RevokingTakesAway(w, e);
    hide Step, IsFresh, Serve, Apply, Alike, Prune;
    StepKeepsInv(w, e);
    RunKeepsAbsent(Step(w, e), more, e.op.token);
    RunKeepsInv(Step(w, e), more);
    var v := Run(Step(w, e), more);
    if AnswerOf(v, again).Some? {
      ReturnedIsApplied(v, again);
      PrunedAnswers(v.plain, again.op, TimeOf(v, again));
    }
  }

  // ------------------------------------------------------------------ the store object

  /** The module state: the file and the cached object. A mutation is done on the cached object itself,
      which is why a save drops the cache before it writes. */
  class OAuthStore {
    var file: Store
    var cache: Option<Store>

    constructor ()
      ensures file == EmptyStore && cache == None
    {
      file, cache := EmptyStore, None;
    }

    ghost function Now(): Disk
      reads this
    {
      Disk(file, cache)
    }

    /** The loop over one table that deletes its expired rows. */
    static method PruneTable(t: Table, now: int) returns (r: Table, changed: bool)
      ensures r == Live(t, now) && changed == (r != t)
    {
      r, changed := t, false;
      var left := t.Keys;
      while left != {}
        invariant left <= t.Keys
        invariant r == map h | h in t && (h in left || t[h].expires > now) :: t[h]
        invariant changed <==> r != t
        decreases left
      {
        var h :| h in left;
        left := left - {h};
        if t[h].expires <= now {
          r := r - {h};
          changed := true;
          assert h !in r;
        }
      }
    }

    static method PruneExpired(s: Store, now: int) returns (r: Store, changed: bool)
      ensures r == Prune(s, now) && changed == (r != s)
    {
      var codes, a := PruneTable(s.codes, now);
      var access, b := PruneTable(s.access, now);
      var refresh, c := PruneTable(s.refresh, now);
      return Store(s.grants, codes, access, refresh), a || b || c;
    }

    /** The loop that deletes the rows of one grant from one table. */
    static method DropRows(t: Table, grant: GrantId) returns (r: Table)
      ensures r == Without(t, {grant})
    {
      r := t;
      var left := t.Keys;
      while left != {}
        invariant left <= t.Keys
        invariant r == map h | h in t && (h in left || t[h].grant != grant) :: t[h]
        decreases left
      {
        var h :| h in left;
        left := left - {h};
        if t[h].grant == grant { r := r - {h}; }
      }
    }

    static method DropGrant(s: Store, grant: GrantId) returns (r: Store)
      ensures r == Purge(s, {grant})
    {
      var codes := DropRows(s.codes, grant);
      var access := DropRows(s.access, grant);
      var refresh := DropRows(s.refresh, grant);
      r := Store(s.grants - {grant}, codes, access, refresh);
    }

    static method InsertPair(s: Store, g: GrantId, address: string, aud: string, newAccess: Hash, newRefresh: Hash, now: int) returns (t: Store)
      requires g in s.grants
      ensures t == AddPair(s, g, address, aud, newAccess, newRefresh, now)
    {
      t := s.(grants := s.grants[g := s.grants[g].(lastUsed := now)]);
      t := t.(access := t.access[newAccess := Row(g, address, aud, now + ACCESS_TTL, "")]);
      t := t.(refresh := t.refresh[newRefresh := Row(g, address, aud, now + REFRESH_TTL, "")]);
    }

    /** The loop over the grants of an address. */
    static method DropGrants(s: Store, ids: set<GrantId>) returns (t: Store)
      ensures t == Purge(s, ids)
    {
      t := s;
      var left := ids;
      PurgeNone(s);
      while left != {}
        invariant left <= ids && t == Purge(s, ids - left)
        decreases left
      {
        var g :| g in left;
        PurgeMore(s, ids - left, g);
        assert ids - (left - {g}) == ids - left + {g};
        left := left - {g};
        t := DropGrant(t, g);
      }
      assert ids - left == ids;
    }

    method LoadStore(now: int, persist: bool, f: Fault) returns (data: Option<Store>)
      modifies this
      ensures Load(Now(), data) == LoadPruned(old(Now()), now, persist, f)
      ensures data.Some? ==> cache == data
    {
      if cache.Some? {
        var pruned, _ := PruneExpired(cache.value, now);
        cache := Some(pruned);
        return Some(pruned);
      }
      var parsed, changed := PruneExpired(file, now);
      if changed && persist {
        if TookEffect(f) { file := parsed; }
        if f != Works {
          cache := None;
          return None;
        }
      }
      cache := Some(parsed);
      return Some(parsed);
    }

    method SaveStore(data: Store, now: int, f: Fault) returns (ok: bool)
      modifies this
      ensures Now() == SavePruned(old(Now()), data, now, f) && ok == (f == Works)
    {
      var pruned, _ := PruneExpired(data, now);
      cache := None;
      if TookEffect(f) { file := pruned; }
      if f != Works { return false; }
      cache := Some(pruned);
      return true;
    }

    method CreateGrantAndCode(id: GrantId, client: string, address: string, code: Hash, resource: string, bound: string,
                              now: int, onLoad: Fault, onSave: Fault) returns (answer: Option<Answer>)
      modifies this
      ensures var s := Serve(old(Now()), Create(id, client, address, code, resource, bound), now, onLoad, onSave);
              Now() == s.d && answer == s.answer
    {
      var data := LoadStore(now, true, onLoad);
      if data.None? { return None; }
      var s := data.value.(grants := data.value.grants[id := Grant(client, address, now)]);
      s := s.(codes := s.codes[code := Row(id, address, resource, now + CODE_TTL, bound)]);
      cache := Some(s);
      var saved := SaveStore(s, now, onSave);
      return if saved then Some(Created) else None;
    }

    method LookupAccessToken(token: Hash, now: int, onLoad: Fault) returns (answer: Option<Answer>)
      modifies this
      ensures var s := Serve(old(Now()), Lookup(token), now, onLoad, Works); Now() == s.d && answer == s.answer
    {
      var data := LoadStore(now, true, onLoad);
      if data.None? { return None; }
      var s := data.value;
      if token !in s.access { return Some(NotFound); }
      var row := s.access[token];
      if row.expires <= now { return Some(Expired); }
      if row.grant !in s.grants { return Some(NotFound); }
      return Some(Access(row));
    }

    method ConsumeAuthorizationCode(code: Hash, now: int, onLoad: Fault, onSave: Fault) returns (answer: Option<Answer>)
      modifies this
      ensures var s := Serve(old(Now()), Consume(code), now, onLoad, onSave); Now() == s.d && answer == s.answer
    {
      var data := LoadStore(now, true, onLoad);
      if data.None? { return None; }
      if code !in data.value.codes { return Some(NotFound); }
      var row := data.value.codes[code];
      cache := Some(data.value.(codes := data.value.codes - {code}));
      var ok := SaveStore(cache.value, now, onSave);
      if !ok { return None; }
      return Some(if row.expires <= now then Expired else CodeRow(row));
    }

    method RotateRefreshToken(token: Hash, wanted: Option<string>, caller: Option<string>, newAccess: Hash, newRefresh: Hash,
                              now: int, onLoad: Fault, onSave: Fault) returns (answer: Option<Answer>)
      modifies this
      ensures var s := Serve(old(Now()), Rotate(token, wanted, caller, newAccess, newRefresh), now, onLoad, onSave);
              Now() == s.d && answer == s.answer
    {
      hide LoadPruned, Prune, AddPair;
      LoadedIsLive(Now(), now, true, onLoad);
      var data := LoadStore(now, true, onLoad);
      if data.None? { return None; }
      var s := data.value;
      if token !in s.refresh { return Some(NotFound); }
      var row := s.refresh[token];
      // The load has just dropped every expired row: the source's branch for one is not taken.
      assert row.expires > now;
      if row.grant !in s.grants { return Some(GrantMissing); }
      if wanted.Some? && row.aud != wanted.value { return Some(AudMismatch); }
      if caller.Some? && s.grants[row.grant].client != caller.value { return Some(ClientMismatch); }
      s := s.(refresh := s.refresh - {token});
      s := InsertPair(s, row.grant, row.address, row.aud, newAccess, newRefresh, now);
      cache := Some(s);
      var saved := SaveStore(s, now, onSave);
      return if saved then Some(Rotated(row)) else None;
    }

    method IssueTokenPair(grant: GrantId, address: string, aud: string, newAccess: Hash, newRefresh: Hash,
                          now: int, onLoad: Fault, onSave: Fault) returns (answer: Option<Answer>)
      modifies this
      ensures var s := Serve(old(Now()), Issue(grant, address, aud, newAccess, newRefresh), now, onLoad, onSave);
              Now() == s.d && answer == s.answer
    {
      var data := LoadStore(now, true, onLoad);
      if data.None? { return None; }
      var s := data.value;
      if grant !in s.grants { return Some(GrantMissing); }
      s := InsertPair(s, grant, address, aud, newAccess, newRefresh, now);
      cache := Some(s);
      var saved := SaveStore(s, now, onSave);
      return if saved then Some(Issued) else None;
    }

    method RevokeTokenOf(token: Hash, caller: Option<string>, now: int, onLoad: Fault, onSave: Fault) returns (answer: Option<Answer>)
      modifies this
      ensures var s := Serve(old(Now()), RevokeToken(token, caller), now, onLoad, onSave); Now() == s.d && answer == s.answer
    {
      if caller.None? || caller.value == "" { return Some(Revoked(false)); }
      var data := LoadStore(now, false, onLoad);
      if data.None? { return None; }
      var s := data.value;
      if token !in s.access && token !in s.refresh { return Some(Revoked(false)); }
      var g := if token in s.access then s.access[token].grant else s.refresh[token].grant;
      if g !in s.grants || s.grants[g].client != caller.value { return Some(Revoked(false)); }
      s := s.(access := s.access - {token}, refresh := s.refresh - {token});
      cache := Some(s);
      var saved := SaveStore(s, now, onSave);
      return if saved then Some(Revoked(true)) else None;
    }

    method RevokeOneGrant(grant: GrantId, now: int, onLoad: Fault, onSave: Fault) returns (answer: Option<Answer>)
      modifies this
      ensures var s := Serve(old(Now()), RevokeGrant(grant), now, onLoad, onSave); Now() == s.d && answer == s.answer
    {
      var data := LoadStore(now, true, onLoad);
      if data.None? { return None; }
      if grant !in data.value.grants { return Some(Revoked(false)); }
      var s := DropGrant(data.value, grant);
      cache := Some(s);
      var saved := SaveStore(s, now, onSave);
      return if saved then Some(Revoked(true)) else None;
    }

    method RevokeGrantsForAddress(address: string, now: int, onLoad: Fault, onSave: Fault) returns (answer: Option<Answer>)
      modifies this
      ensures var s := Serve(old(Now()), RevokeAddress(address), now, onLoad, onSave); Now() == s.d && answer == s.answer
    {
      var data := LoadStore(now, true, onLoad);
      if data.None? { return None; }
      var s := data.value;
      var ids := set g | g in s.grants && s.grants[g].address == address;
      assert ids == GrantsOf(data.value, address);
      if |ids| == 0 { return Some(RevokedMany(0)); }
      s := DropGrants(s, ids);
      cache := Some(s);
      var saved := SaveStore(s, now, onSave);
      return if saved then Some(RevokedMany(|ids|)) else None;
    }
  }

  lemma LoadedIsLive(d: Disk, now: int, persist: bool, f: Fault)
    ensures var l := LoadPruned(d, now, persist, f);
            l.data.Some? ==> forall h :: h in l.data.value.refresh ==> l.data.value.refresh[h].expires > now
  {
  }

  lemma PurgeNone(s: Store)
    ensures Purge(s, {}) == s
  {
    assert s.grants - {} == s.grants;
    assert Without(s.codes, {}) == s.codes && Without(s.access, {}) == s.access && Without(s.refresh, {}) == s.refresh;
  }

  lemma WithoutMore(t: Table, gone: set<GrantId>, g: GrantId)
    ensures Without(Without(t, gone), {g}) == Without(t, gone + {g})
  {
  }

  lemma PurgeMore(s: Store, gone: set<GrantId>, g: GrantId)
    ensures Purge(Purge(s, gone), {g}) == Purge(s, gone + {g})
  {
    WithoutMore(s.codes, gone, g);
    WithoutMore(s.access, gone, g);
    WithoutMore(s.refresh, gone, g);
    assert s.grants - gone - {g} == s.grants - (gone + {g});
  }
}
