/** The capped scan of the newest messages (imap.ts): who each message was delivered to, with bounds per
    message and over all, that never silently miscounts one of the known identities. */
module WindowScan {
  import opened Common

  type Address = string

  /** `recipients` iterates a JavaScript set: each address once. */
  datatype Message = Message(recipients: seq<Address>, t: int, seen: bool)

  datatype Record = Record(t: int, seen: bool, to: seq<Address>)

  /** `keys` are the distinct addresses admitted so far; `incomplete` the identities whose counts cannot be
      trusted; `partial` says that anything was dropped. */
  datatype Tally = Tally(keys: set<Address>, incomplete: set<Address>, partial: bool)

  /** The scan's parameters: the identities, the addresses in a hosted domain, and the two bounds. */
  datatype Bounds = Bounds(ids: seq<Address>, hosted: set<Address>, perMessage: int, total: int)

  predicate Distinct(s: seq<Address>) {
    forall i, j :: 0 <= i < j < |s| ==> s[i] != s[j]
  }

  // ------------------------------------------------------------------ the scan as a value

  /** One identity gets a place in the key set, or is named incomplete. */
  function ReserveOne(t: Tally, a: Address, total: int): Tally {
    if |t.keys| < total then t.(keys := t.keys + {a}) else t.(incomplete := t.incomplete + {a}, partial := true)
  }

  function Reserve(ids: seq<Address>, total: int): Tally {
    if ids == [] then Tally({}, {}, false) else ReserveOne(Reserve(ids[..|ids| - 1], total), ids[|ids| - 1], total)
  }

  /** The recipients that are identities, in order. */
  function Hits(b: Bounds, to: seq<Address>): seq<Address> {
    if to == [] then [] else
    Hits(b, to[..|to| - 1]) + if to[|to| - 1] in b.ids then [to[|to| - 1]] else []
  }

  /** The other recipients in a hosted domain, in order. */
  function Others(b: Bounds, to: seq<Address>): seq<Address> {
    if to == [] then [] else
    Others(b, to[..|to| - 1]) + if to[|to| - 1] !in b.ids && to[|to| - 1] in b.hosted then [to[|to| - 1]] else []
  }

  /** What a record would hold without bounds: identities first. */
  function Whole(b: Bounds, m: Message): seq<Address> { Hits(b, m.recipients) + Others(b, m.recipients) }

  function Room(b: Bounds, n: nat): nat { if b.perMessage < 0 then 0 else if b.perMessage < n then b.perMessage else n }

  /** The first pass over one message: identities beyond the bound are named, others only noticed. */
  function Bound(b: Bounds, t: Tally, m: Message): Tally {
    var hits, all := Hits(b, m.recipients), Whole(b, m);
    Tally(t.keys, t.incomplete + (set a | a in hits[Room(b, |hits|)..]), t.partial || Room(b, |all|) < |all|)
  }

  /** Whether an address fits into the key set. */
  predicate Fits(b: Bounds, t: Tally, a: Address) { a in t.keys || |t.keys| < b.total }

  function Admit(b: Bounds, t: Tally, a: Address): Tally {
    if Fits(b, t, a) then t.(keys := t.keys + {a})
    else t.(incomplete := if a in b.ids then t.incomplete + {a} else t.incomplete, partial := true)
  }

  /** The second pass: the kept addresses that fit, and the tally after them. */
  function AdmitAll(b: Bounds, t: Tally, kept: seq<Address>): (seq<Address>, Tally) {
    if kept == [] then ([], t) else
    var (before, u) := AdmitAll(b, t, kept[..|kept| - 1]);
    var a := kept[|kept| - 1];
    (if Fits(b, u, a) then before + [a] else before, Admit(b, u, a))
  }

  function ScanOne(b: Bounds, t: Tally, m: Message): (Record, Tally) {
    var all := Whole(b, m);
    var (to, u) := AdmitAll(b, Bound(b, t, m), all[..Room(b, |all|)]);
    (Record(m.t, m.seen, to), u)
  }

  function ScanAll(b: Bounds, messages: seq<Message>): (seq<Record>, Tally) {
    if messages == [] then ([], Reserve(b.ids, b.total)) else
    var (before, t) := ScanAll(b, messages[..|messages| - 1]);
    var (r, u) := ScanOne(b, t, messages[|messages| - 1]);
    (before + [r], u)
  }

  datatype Scan = Scan(records: seq<Record>, truncated: bool, incomplete: set<Address>, partial: bool)

  /** An empty mailbox is answered before anything is reserved. */
  function ScanMailbox(b: Bounds, mailboxTotal: nat, messages: seq<Message>): Scan {
    if mailboxTotal == 0 then Scan([], false, {}, false) else
    var (records, t) := ScanAll(b, messages);
    Scan(records, mailboxTotal > |records|, t.incomplete, t.partial)
  }

  // ------------------------------------------------------------------ the scan as the source runs it

  method ReserveIdentities(ids: seq<Address>, total: int) returns (keys: set<Address>, incomplete: set<Address>, partial: bool)
    ensures Tally(keys, incomplete, partial) == Reserve(ids, total)
  {
    keys, incomplete, partial := {}, {}, false;
    for i := 0 to |ids|
      invariant Tally(keys, incomplete, partial) == Reserve(ids[..i], total)
    {
      assert ids[..i + 1][..i] == ids[..i];
      if |keys| < total { keys := keys + {ids[i]}; } else { incomplete, partial := incomplete + {ids[i]}, true; }
    }
    assert ids[..|ids|] == ids;
  }

  method Sift(b: Bounds, to: seq<Address>) returns (hits: seq<Address>, others: seq<Address>)
    ensures hits == Hits(b, to) && others == Others(b, to)
  {
    hits, others := [], [];
    for i := 0 to |to|
      invariant hits == Hits(b, to[..i]) && others == Others(b, to[..i])
    {
      assert to[..i + 1][..i] == to[..i];
      if to[i] in b.ids { hits := hits + [to[i]]; } else if to[i] in b.hosted { others := others + [to[i]]; }
    }
    assert to[..|to|] == to;
  }

  lemma SliceOneMore(s: seq<Address>, r: nat, i: nat)
    requires r <= i < |s|
    ensures s[r..i + 1] == s[r..i] + [s[i]]
  {
  }

  /** The two loops of the per-message bound. */
  method BoundMessage(b: Bounds, t: Tally, hits: seq<Address>, others: seq<Address>) returns (kept: seq<Address>, u: Tally)
    ensures kept == (hits + others)[..Room(b, |hits + others|)]
    ensures u == Tally(t.keys, t.incomplete + (set a | a in hits[Room(b, |hits|)..]), t.partial || Room(b, |hits + others|) < |hits + others|)
  {
    kept, u := [], t;
    for i := 0 to |hits|
      invariant kept == hits[..Room(b, i)]
      invariant u == Tally(t.keys, t.incomplete + (set a | a in hits[Room(b, i)..i]), t.partial || Room(b, i) < i)
    {
      if |kept| < b.perMessage {
        kept := kept + [hits[i]];
      } else {
        SliceOneMore(hits, Room(b, i), i);
        u := u.(incomplete := u.incomplete + {hits[i]}, partial := true);
      }
    }
    assert hits[Room(b, |hits|)..|hits|] == hits[Room(b, |hits|)..];
    var all := hits + others;
    ghost var v := u;
    assert all[..Room(b, |hits|)] == hits[..Room(b, |hits|)];
    for i := 0 to |others|
      invariant kept == all[..Room(b, |hits| + i)]
      invariant u == v.(partial := t.partial || Room(b, |hits| + i) < |hits| + i)
    {
      if |kept| < b.perMessage {
        assert all[|hits| + i] == others[i];
        kept := kept + [others[i]];
      } else {
        u := u.(partial := true);
      }
    }
  }

  method AdmitKept(b: Bounds, t: Tally, kept: seq<Address>) returns (to: seq<Address>, u: Tally)
    ensures (to, u) == AdmitAll(b, t, kept)
  {
    to, u := [], t;
    for i := 0 to |kept|
      invariant (to, u) == AdmitAll(b, t, kept[..i])
    {
      assert kept[..i + 1][..i] == kept[..i];
      var a := kept[i];
      if a in u.keys || |u.keys| < b.total {
        u := u.(keys := u.keys + {a});
        to := to + [a];
      } else {
        if a in b.ids { u := u.(incomplete := u.incomplete + {a}); }
        u := u.(partial := true);
      }
    }
    assert kept[..|kept|] == kept;
  }

  /** scanMailboxWindow over the fetched messages. */
  method ScanWindow(b: Bounds, mailboxTotal: nat, messages: seq<Message>) returns (scan: Scan)
    ensures scan == ScanMailbox(b, mailboxTotal, messages)
  {
    if mailboxTotal == 0 { return Scan([], false, {}, false); }
    var keys, incomplete, partial := ReserveIdentities(b.ids, b.total);
    var records, t := [], Tally(keys, incomplete, partial);
    for i := 0 to |messages|
      invariant (records, t) == ScanAll(b, messages[..i])
    {
      assert messages[..i + 1][..i] == messages[..i];
      var m := messages[i];
      var hits, others := Sift(b, m.recipients);
      var kept, u := BoundMessage(b, t, hits, others);
      var to, v := AdmitKept(b, u, kept);
      records := records + [Record(m.t, m.seen, to)];
      t := v;
    }
    assert messages[..|messages|] == messages;
    return Scan(records, mailboxTotal > |records|, t.incomplete, t.partial);
  }

  // ------------------------------------------------------------------ what a scan keeps

  function AtLeast0(n: int): nat { if n < 0 then 0 else n }

  /** Every identity has its place or is named; only identities are named; the keys fit. */
  predicate Sound(b: Bounds, t: Tally) {
    && (forall a :: a in b.ids ==> a in t.keys || a in t.incomplete)
    && (forall a :: a in t.incomplete ==> a in b.ids)
    && |t.keys| <= AtLeast0(b.total)
    && (t.incomplete != {} ==> t.partial)
  }

  /** Nothing is taken back. */
  predicate Grows(t: Tally, u: Tally) {
    t.keys <= u.keys && t.incomplete <= u.incomplete && (t.partial ==> u.partial)
  }

  /** A tally that has reserved these `n` identities. */
  predicate HasReserved(t: Tally, seen: set<Address>, n: nat, total: int) {
    && t.keys + t.incomplete == seen
    && |t.keys| == (if n <= AtLeast0(total) then n else AtLeast0(total))
    && (t.partial <==> n > AtLeast0(total)) && (t.incomplete != {} ==> t.partial)
  }

  lemma ReserveOneMore(t: Tally, seen: set<Address>, n: nat, a: Address, total: int)
    requires HasReserved(t, seen, n, total) && a !in seen
    ensures HasReserved(ReserveOne(t, a, total), seen + {a}, n + 1, total)
  {
    assert a !in t.keys;
    assert t.keys + {a} + t.incomplete == seen + {a};
    assert t.keys + (t.incomplete + {a}) == seen + {a};
  }

  function AsSet(ids: seq<Address>): (s: set<Address>)
    ensures forall a :: a in s <==> a in ids
  {
    if ids == [] then {} else
    assert ids == ids[..|ids| - 1] + [ids[|ids| - 1]];
    AsSet(ids[..|ids| - 1]) + {ids[|ids| - 1]}
  }

  lemma {:induction false} ReserveIsSound(ids: seq<Address>, total: int)
    requires Distinct(ids)
    ensures HasReserved(Reserve(ids, total), AsSet(ids), |ids|, total)
  {
    if ids != [] {
      hide HasReserved, Distinct;
      LastIsNew(ids);
      ReserveIsSound(ids[..|ids| - 1], total);
      ReserveOneMore(Reserve(ids[..|ids| - 1], total), AsSet(ids[..|ids| - 1]), |ids| - 1, ids[|ids| - 1], total);
    }
  }

  lemma LastIsNew(ids: seq<Address>)
    requires ids != [] && Distinct(ids)
    ensures ids[|ids| - 1] !in ids[..|ids| - 1] && Distinct(ids[..|ids| - 1])
  {
  }

  lemma AdmitIsSound(b: Bounds, t: Tally, a: Address)
    requires Sound(b, t)
    ensures Sound(b, Admit(b, t, a)) && Grows(t, Admit(b, t, a))
  {
    if a in t.keys { assert t.keys + {a} == t.keys; }
  }

  /** The addresses a record keeps are among those it was given, in the key set, and hold every identity
      that is not named; if nothing was dropped they are all of them. */
  lemma {:induction false} AdmitAllIsSound(b: Bounds, t: Tally, kept: seq<Address>)
    requires Sound(b, t)
    ensures var (to, u) := AdmitAll(b, t, kept);
            && Sound(b, u) && Grows(t, u) && |to| <= |kept|
            && (forall a :: a in to ==> a in kept && a in u.keys)
            && (forall a :: a in kept && a in b.ids && a !in u.incomplete ==> a in to)
            && (!u.partial ==> to == kept)
            && (to == kept && !t.partial ==> !u.partial)
  {
    if kept != [] {
      var init, a := kept[..|kept| - 1], kept[|kept| - 1];
      AdmitAllIsSound(b, t, init);
      var (before, u) := AdmitAll(b, t, init);
      AdmitIsSound(b, u, a);
      assert kept == init + [a];
      assert Fits(b, u, a) && before + [a] == kept ==> before == init by {
        if Fits(b, u, a) && before + [a] == kept { assert before == (before + [a])[..|before|]; }
      }
    }
  }

  lemma {:induction false} HitsAre(b: Bounds, to: seq<Address>, a: Address)
    ensures a in Hits(b, to) <==> a in to && a in b.ids
    ensures a in Others(b, to) <==> a in to && a !in b.ids && a in b.hosted
  {
    if to != [] {
      assert to == to[..|to| - 1] + [to[|to| - 1]];
      HitsAre(b, to[..|to| - 1], a);
    }
  }

  lemma TailHas(s: seq<Address>, r: nat)
    requires r <= |s|
    ensures forall i :: r <= i < |s| ==> s[i] in s[r..]
  {
    forall i | r <= i < |s|
      ensures s[i] in s[r..]
    {
      assert s[r..][i - r] == s[i];
    }
  }

  /** Only identities are named for a full message. */
  lemma NamedAreIdentities(b: Bounds, m: Message, r: nat)
    requires r <= |Hits(b, m.recipients)|
    ensures forall a :: a in Hits(b, m.recipients)[r..] ==> a in b.ids
  {
    var hits := Hits(b, m.recipients);
    forall a | a in hits[r..]
      ensures a in b.ids
    {
      assert a in hits;
      HitsAre(b, m.recipients, a);
    }
  }

  /** An identity of the message that is not named is among those kept. */
  lemma UnnamedAreKept(b: Bounds, m: Message, a: Address)
    requires a in m.recipients && a in b.ids && a !in Hits(b, m.recipients)[Room(b, |Hits(b, m.recipients)|)..]
    ensures var all := Whole(b, m); a in all[..Room(b, |all|)]
  {
    var hits, all := Hits(b, m.recipients), Whole(b, m);
    HitsAre(b, m.recipients, a);
    TailHas(hits, Room(b, |hits|));
    var i :| 0 <= i < |hits| && hits[i] == a;
    assert i < Room(b, |hits|) <= Room(b, |all|);
    assert all[..Room(b, |all|)][i] == a;
  }

  lemma BoundIsSound(b: Bounds, t: Tally, m: Message)
    requires Sound(b, t)
    ensures var u := Bound(b, t, m);
            var all := Whole(b, m);
            && Sound(b, u) && Grows(t, u)
            && (forall a :: a in m.recipients && a in b.ids && a !in u.incomplete ==> a in all[..Room(b, |all|)])
            && (u.partial <==> t.partial || Room(b, |all|) < |all|)
  {
    var u := Bound(b, t, m);
    var hits, all := Hits(b, m.recipients), Whole(b, m);
    NamedAreIdentities(b, m, Room(b, |hits|));
    forall a | a in m.recipients && a in b.ids && a !in u.incomplete
      ensures a in all[..Room(b, |all|)]
    {
      UnnamedAreKept(b, m, a);
    }
    assert Room(b, |hits|) == |hits| ==> hits[Room(b, |hits|)..] == [];
  }

  /** What one record says. */
  predicate RecordOk(b: Bounds, r: Record, m: Message, t: Tally) {
    && r.t == m.t && r.seen == m.seen && |r.to| <= AtLeast0(b.perMessage)
    && (forall a :: a in r.to ==> a in m.recipients && (a in b.ids || a in b.hosted) && a in t.keys)
    && (forall a :: a in b.ids && a !in t.incomplete ==> (a in r.to <==> a in m.recipients))
  }

  lemma ScanOneIsSound(b: Bounds, t: Tally, m: Message)
    requires Sound(b, t)
    ensures var (r, u) := ScanOne(b, t, m);
            && Sound(b, u) && Grows(t, u) && RecordOk(b, r, m, u)
            && (!u.partial <==> !t.partial && r.to == Whole(b, m))
  {
    BoundIsSound(b, t, m);
    var all := Whole(b, m);
    var kept := all[..Room(b, |all|)];
    AdmitAllIsSound(b, Bound(b, t, m), kept);
    var (to, u) := AdmitAll(b, Bound(b, t, m), kept);
    forall a | a in to
      ensures a in m.recipients && (a in b.ids || a in b.hosted)
    {
      assert a in kept && a in all;
      HitsAre(b, m.recipients, a);
    }
    assert Room(b, |all|) == |all| ==> kept == all;
  }

  lemma RecordStaysOk(b: Bounds, r: Record, m: Message, t: Tally, u: Tally)
    requires RecordOk(b, r, m, t) && Grows(t, u)
    ensures RecordOk(b, r, m, u)
  {
  }

  // ------------------------------------------------------------------ the main result

  /** Every record is right for its message. */
  predicate AllOk(b: Bounds, records: seq<Record>, messages: seq<Message>, t: Tally) {
    |records| == |messages| && forall i :: 0 <= i < |messages| ==> RecordOk(b, records[i], messages[i], t)
  }

  /** Every record is what it would be without bounds. */
  predicate AllWhole(b: Bounds, records: seq<Record>, messages: seq<Message>) {
    |records| == |messages| && forall i :: 0 <= i < |messages| ==> records[i].to == Whole(b, messages[i])
  }

  lemma OneMoreOk(b: Bounds, before: seq<Record>, init: seq<Message>, r: Record, m: Message, t: Tally, u: Tally)
    requires AllOk(b, before, init, t) && Grows(t, u) && RecordOk(b, r, m, u)
    ensures AllOk(b, before + [r], init + [m], u)
  {
    forall i | 0 <= i < |init|
      ensures RecordOk(b, before[i], init[i], u)
    {
      RecordStaysOk(b, before[i], init[i], t, u);
    }
  }

  lemma OneMoreWhole(b: Bounds, before: seq<Record>, init: seq<Message>, r: Record, m: Message)
    requires |before| == |init|
    ensures AllWhole(b, before + [r], init + [m]) <==> AllWhole(b, before, init) && r.to == Whole(b, m)
  {
    var records, messages := before + [r], init + [m];
    assert forall i :: 0 <= i < |init| ==> records[i] == before[i] && messages[i] == init[i];
    assert records[|init|] == r && messages[|init|] == m;
  }

  lemma {:induction false} AllCountExactly(b: Bounds, messages: seq<Message>)
    requires Distinct(b.ids)
    ensures var (records, t) := ScanAll(b, messages);
            && Sound(b, t) && AllOk(b, records, messages, t)
            && (!t.partial <==> |b.ids| <= AtLeast0(b.total) && AllWhole(b, records, messages))
  {
    if messages == [] {
      ReserveIsSound(b.ids, b.total);
      var t := Reserve(b.ids, b.total);
      assert forall a :: a in b.ids <==> a in t.keys + t.incomplete;
    } else {
      hide ScanOne, Whole, RecordOk, Sound, Grows, Distinct, AllOk, AllWhole;
      var init, m := messages[..|messages| - 1], messages[|messages| - 1];
      assert messages == init + [m];
      AllCountExactly(b, init);
      var (before, t) := ScanAll(b, init);
      ScanOneIsSound(b, t, m);
      var (r, u) := ScanOne(b, t, m);
      OneMoreOk(b, before, init, r, m, t, u);
      ScanLength(b, init);
      OneMoreWhole(b, before, init, r, m);
    }
  }

  /** For any identities, messages and bounds, and any mailbox holding the messages: each identity that is
      not named incomplete appears in exactly the records of the messages addressed to it; only identities
      are named; records stay within their bound and hold no address a message was not delivered to, and
      all of them together hold at most as many addresses as the bound on keys (those of the set `keys`);
      and the scan of a mailbox that is not empty is not partial exactly when every record is what it would
      be without bounds and every identity had room. */
  lemma ScanCountsExactly(b: Bounds, mailboxTotal: nat, messages: seq<Message>)
    requires Distinct(b.ids) && |messages| <= mailboxTotal
    ensures var scan := ScanMailbox(b, mailboxTotal, messages);
            && (exists keys: set<Address> ::
                  |keys| <= AtLeast0(b.total) && AllOk(b, scan.records, messages, Tally(keys, scan.incomplete, scan.partial)))
            && (forall a :: a in scan.incomplete ==> a in b.ids) && (scan.incomplete != {} ==> scan.partial)
            && (!scan.partial <==> mailboxTotal == 0 || (|b.ids| <= AtLeast0(b.total) && AllWhole(b, scan.records, messages)))
            && (scan.truncated <==> |messages| < mailboxTotal)
  {
    AllCountExactly(b, messages);
    var keys := if mailboxTotal == 0 then {} else ScanAll(b, messages).1.keys;
    var scan := ScanMailbox(b, mailboxTotal, messages);
    ScanLength(b, messages);
    hide RecordOk, AllWhole;
    assert AllOk(b, scan.records, messages, Tally(keys, scan.incomplete, scan.partial));
  }

  lemma {:induction false} ScanLength(b: Bounds, messages: seq<Message>)
    ensures |ScanAll(b, messages).0| == |messages|
  {
    if messages != [] { ScanLength(b, messages[..|messages| - 1]); }
  }

  // ------------------------------------------------------------------ the branch called unreachable

  /** The addresses of a message that reach the second pass. */
  function Kept(b: Bounds, m: Message): seq<Address> {
    var all := Whole(b, m);
    all[..Room(b, |all|)]
  }

  /** The tally when the second pass over message `i` comes to its address `j`. */
  function TallyAt(b: Bounds, messages: seq<Message>, i: nat, j: nat): Tally
    requires i < |messages| && j < |Kept(b, messages[i])|
  {
    AdmitAll(b, Bound(b, ScanAll(b, messages[..i]).1, messages[i]), Kept(b, messages[i])[..j]).1
  }

  /** There, an identity finds no room. */
  predicate DropsIdentity(b: Bounds, messages: seq<Message>, i: nat, j: nat)
    requires i < |messages| && j < |Kept(b, messages[i])|
  {
    var a := Kept(b, messages[i])[j];
    a in b.ids && !Fits(b, TallyAt(b, messages, i, j), a)
  }

  /** The identities that the reservation had room for. */
  function Reserved(b: Bounds): seq<Address> { b.ids[..if AtLeast0(b.total) < |b.ids| then AtLeast0(b.total) else |b.ids|] }

  lemma {:induction false} AdmitAllKeys(b: Bounds, t: Tally, kept: seq<Address>)
    ensures var u := AdmitAll(b, t, kept).1; t.keys <= u.keys && (|t.keys| >= b.total ==> u.keys == t.keys)
  {
    if kept != [] {
      AdmitAllKeys(b, t, kept[..|kept| - 1]);
      var u, a := AdmitAll(b, t, kept[..|kept| - 1]).1, kept[|kept| - 1];
      if a in u.keys { assert u.keys + {a} == u.keys; }
    }
  }

  /** Full keys stay as they are. */
  lemma {:induction false} ScanKeys(b: Bounds, messages: seq<Message>)
    ensures var t, u := Reserve(b.ids, b.total), ScanAll(b, messages).1;
            t.keys <= u.keys && (|t.keys| >= b.total ==> u.keys == t.keys)
  {
    if messages != [] {
      var init, m := messages[..|messages| - 1], messages[|messages| - 1];
      ScanKeys(b, init);
      hide Reserve, Whole, AdmitAll;
      var t, all := ScanAll(b, init).1, Whole(b, m);
      AdmitAllKeys(b, Bound(b, t, m), all[..Room(b, |all|)]);
    }
  }

  /** The first identities are the reserved ones, and if there are others the keys are full. */
  lemma {:induction false} ReservedAreFirst(ids: seq<Address>, total: int)
    requires Distinct(ids)
    ensures var n := if AtLeast0(total) < |ids| then AtLeast0(total) else |ids|;
            var keys := Reserve(ids, total).keys;
            (forall a :: a in keys <==> a in ids[..n]) && |keys| == n
  {
    hide Distinct;
    if ids != [] {
      var init := ids[..|ids| - 1];
      LastIsNew(ids);
      ReservedAreFirst(init, total);
      if AtLeast0(total) < |ids| {
        assert ids[..AtLeast0(total)] == init[..AtLeast0(total)];
      } else {
        assert ids == init + [ids[|ids| - 1]] && init[..|init|] == init && ids[..|ids|] == ids;
      }
    }
  }

  /** Over every scan: the second pass drops an identity exactly where the message keeps one that the
      reservation had no room for. */
  lemma UnreservedIdentityReachesLastBranch(b: Bounds, messages: seq<Message>, i: nat, j: nat)
    requires Distinct(b.ids) && i < |messages| && j < |Kept(b, messages[i])|
    ensures DropsIdentity(b, messages, i, j) <==>
            Kept(b, messages[i])[j] in b.ids && Kept(b, messages[i])[j] !in Reserved(b)
  {
    hide Distinct, Kept, Reserve, AdmitAll, ScanAll;
    ScanKeys(b, messages[..i]);
    AdmitAllKeys(b, Bound(b, ScanAll(b, messages[..i]).1, messages[i]), Kept(b, messages[i])[..j]);
    ReservedAreFirst(b.ids, b.total);
    assert b.ids[..|b.ids|] == b.ids;
  }

  /** So no identity is ever dropped there exactly when no message keeps an unreserved one, as when every
      identity has its place. */
  lemma LastBranchIsDeadExactly(b: Bounds, messages: seq<Message>)
    requires Distinct(b.ids)
    ensures (forall i: nat, j: nat :: i < |messages| && j < |Kept(b, messages[i])| ==> !DropsIdentity(b, messages, i, j)) <==>
            (forall i: nat, a :: i < |messages| && a in Kept(b, messages[i]) && a in b.ids ==> a in Reserved(b))
    ensures |b.ids| <= AtLeast0(b.total) ==>
            forall i: nat, j: nat :: i < |messages| && j < |Kept(b, messages[i])| ==> !DropsIdentity(b, messages, i, j)
  {
    hide Kept, DropsIdentity, Distinct, Reserved;
    forall i: nat, j: nat | i < |messages| && j < |Kept(b, messages[i])|
      ensures DropsIdentity(b, messages, i, j) <==> Kept(b, messages[i])[j] in b.ids && Kept(b, messages[i])[j] !in Reserved(b)
    {
      UnreservedIdentityReachesLastBranch(b, messages, i, j);
    }
    AllReserved(b);
  }

  lemma AllReserved(b: Bounds)
    ensures |b.ids| <= AtLeast0(b.total) ==> Reserved(b) == b.ids
  {
  }

  /** It does happen: two identities, room for one, and a message to the other. */
  lemma LastBranchIsReached(a: Address, c: Address)
    requires a != c
    ensures var b, messages := Bounds([a, c], {}, 2, 1), [Message([c], 0, false)];
            Kept(b, messages[0]) == [c] && DropsIdentity(b, messages, 0, 0)
  {
    var b, messages := Bounds([a, c], {}, 2, 1), [Message([c], 0, false)];
    assert [c][..0] == [] && Hits(b, [c]) == [c] && Others(b, [c]) == [];
    assert Kept(b, messages[0]) == [c];
    assert Reserved(b) == [a];
    UnreservedIdentityReachesLastBranch(b, messages, 0, 0);
  }

  // ------------------------------------------------------------------ who is named incomplete

  /** The recipients before position `j` that are identities. */
  function IdentitiesBefore(b: Bounds, to: seq<Address>, j: nat): set<int> { set k | 0 <= k < j && k < |to| && to[k] in b.ids }

  /** The message goes to this identity, but its own bound is used up by others before it. */
  predicate Loses(b: Bounds, to: seq<Address>, a: Address) {
    exists j: nat :: j < |to| && to[j] == a && a in b.ids && |IdentitiesBefore(b, to, j)| >= AtLeast0(b.perMessage)
  }

  lemma {:induction false} HitsAreCounted(b: Bounds, to: seq<Address>)
    ensures |Hits(b, to)| == |IdentitiesBefore(b, to, |to|)|
  {
    if to == [] {
      assert IdentitiesBefore(b, to, 0) == {};
    } else {
      var n := |to| - 1;
      HitsAreCounted(b, to[..n]);
      var before := IdentitiesBefore(b, to[..n], n);
      assert IdentitiesBefore(b, to, |to|) == if to[n] in b.ids then before + {n} else before;
    }
  }

  lemma LosesOneMore(b: Bounds, init: seq<Address>, x: Address, a: Address)
    ensures Loses(b, init + [x], a) <==>
            Loses(b, init, a) || (x == a && a in b.ids && |IdentitiesBefore(b, init, |init|)| >= AtLeast0(b.perMessage))
  {
    var to := init + [x];
    forall j: nat | j < |to|
      ensures IdentitiesBefore(b, to, j) == IdentitiesBefore(b, init, j)
    {
    }
    if j: nat :| j < |init| && init[j] == a && a in b.ids && |IdentitiesBefore(b, init, j)| >= AtLeast0(b.perMessage) {
      assert to[j] == a;
    }
    assert to[|init|] == x;
  }

  lemma {:induction false} CutOffIsLost(b: Bounds, to: seq<Address>, a: Address)
    ensures a in Hits(b, to)[Room(b, |Hits(b, to)|)..] <==> Loses(b, to, a)
  {
    if to == [] {
    } else {
      var n := |to| - 1;
      var init, x := to[..n], to[n];
      CutOffIsLost(b, init, a);
      LosesOneMore(b, init, x, a);
      HitsAreCounted(b, init);
      assert to == init + [x];
      var hits := Hits(b, init);
      var r := Room(b, |hits|);
      if x in b.ids {
        var q := Room(b, |hits| + 1);
        TailOneMore(hits, x, r, q);
        assert Hits(b, to) == hits + [x];
        assert q == r <==> |hits| >= AtLeast0(b.perMessage);
        assert q != r ==> hits[r..] == [];
      } else {
        assert Hits(b, to) == hits;
      }
    }
  }

  lemma TailOneMore(s: seq<Address>, x: Address, r: nat, q: nat)
    requires r <= |s| && (q == r || (r == |s| && q == |s| + 1))
    ensures (s + [x])[q..] == if q == r then s[r..] + [x] else []
  {
  }

  /** What the reservation has already named is all that the second pass could name. */
  lemma {:induction false} AdmitAllNamesNobody(b: Bounds, t: Tally, kept: seq<Address>)
    requires forall a :: a in b.ids ==> a in t.keys || a in t.incomplete
    ensures AdmitAll(b, t, kept).1.incomplete == t.incomplete && t.keys <= AdmitAll(b, t, kept).1.keys
  {
    if kept != [] {
      AdmitAllNamesNobody(b, t, kept[..|kept| - 1]);
      var u, a := AdmitAll(b, t, kept[..|kept| - 1]).1, kept[|kept| - 1];
      if !Fits(b, u, a) && a in b.ids { assert u.incomplete + {a} == u.incomplete; }
    }
  }

  /** Some message of these loses the identity. */
  predicate SomeLoses(b: Bounds, messages: seq<Message>, a: Address) {
    exists i :: 0 <= i < |messages| && Loses(b, messages[i].recipients, a)
  }

  lemma {:induction false} NamedExactly(b: Bounds, messages: seq<Message>, a: Address)
    requires Distinct(b.ids)
    ensures a in ScanAll(b, messages).1.incomplete <==> (a in b.ids && a !in Reserved(b)) || SomeLoses(b, messages, a)
  {
    if messages == [] {
      ReserveIsSound(b.ids, b.total);
      ReservedAreFirst(b.ids, b.total);
      NotBoth(b.ids, b.total, a);
    } else {
      var n := |messages| - 1;
      var init, m := messages[..n], messages[n];
      NamedExactly(b, init, a);
      AllCountExactly(b, init);
      hide Loses, Reserved, Whole, Distinct, AllOk, ScanOne, SomeLoses;
      OneMoreNames(b, ScanAll(b, init).1, m, a);
      OneMoreLoses(b, messages, a);
    }
  }

  lemma OneMoreNames(b: Bounds, t: Tally, m: Message, a: Address)
    requires forall a :: a in b.ids ==> a in t.keys || a in t.incomplete
    ensures a in ScanOne(b, t, m).1.incomplete <==> a in t.incomplete || Loses(b, m.recipients, a)
  {
    hide Loses, Whole;
    var all := Whole(b, m);
    AdmitAllNamesNobody(b, Bound(b, t, m), all[..Room(b, |all|)]);
    CutOffIsLost(b, m.recipients, a);
  }

  lemma OneMoreLoses(b: Bounds, messages: seq<Message>, a: Address)
    requires messages != []
    ensures var n := |messages| - 1;
            SomeLoses(b, messages, a) <==> SomeLoses(b, messages[..n], a) || Loses(b, messages[n].recipients, a)
  {
    hide Loses;
    var n := |messages| - 1;
    if i :| 0 <= i < n && Loses(b, messages[..n][i].recipients, a) {
      assert messages[i] == messages[..n][i];
    }
  }

  /** A reserved identity is not named by the reservation. */
  lemma {:induction false} NotBoth(ids: seq<Address>, total: int, a: Address)
    requires Distinct(ids)
    ensures !(a in Reserve(ids, total).keys && a in Reserve(ids, total).incomplete)
  {
    if ids != [] {
      LastIsNew(ids);
      NotBoth(ids[..|ids| - 1], total, a);
      ReserveIsSound(ids[..|ids| - 1], total);
    }
  }

  /** Exactly who is named: an identity without a reserved place, and one that some message is addressed to
      behind as many other identities as the message may keep. */
  lemma IncompleteIsExact(b: Bounds, mailboxTotal: nat, messages: seq<Message>, a: Address)
    requires Distinct(b.ids)
    ensures a in ScanMailbox(b, mailboxTotal, messages).incomplete <==>
            mailboxTotal > 0 && a in b.ids &&
            ((forall i :: 0 <= i < AtLeast0(b.total) && i < |b.ids| ==> b.ids[i] != a)
             || exists i, j: nat :: 0 <= i < |messages| && j < |messages[i].recipients| && messages[i].recipients[j] == a
                  && |IdentitiesBefore(b, messages[i].recipients, j)| >= AtLeast0(b.perMessage))
  {
    NamedExactly(b, messages, a);
    var n := if AtLeast0(b.total) < |b.ids| then AtLeast0(b.total) else |b.ids|;
    assert a in Reserved(b) <==> exists i :: 0 <= i < n && b.ids[i] == a by {
      assert forall i :: 0 <= i < n ==> Reserved(b)[i] == b.ids[i];
    }
    if i :| 0 <= i < |messages| && Loses(b, messages[i].recipients, a) {
      var j: nat :| j < |messages[i].recipients| && messages[i].recipients[j] == a && a in b.ids
                    && |IdentitiesBefore(b, messages[i].recipients, j)| >= AtLeast0(b.perMessage);
    }
    if i, j: nat :| 0 <= i < |messages| && j < |messages[i].recipients| && messages[i].recipients[j] == a && a in b.ids
                    && |IdentitiesBefore(b, messages[i].recipients, j)| >= AtLeast0(b.perMessage) {
      assert Loses(b, messages[i].recipients, a);
    }
  }
}
