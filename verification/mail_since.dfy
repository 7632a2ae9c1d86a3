/** Forward catch-up over the inbox (imap.ts): a fixed filter anchor (t, uid) and a moving scan watermark,
    a bounded batch per request, and a page that stops at the limit. */
module MailSince {
  import opened Common

  type Uid = nat

  /** `t` is the receive time; `mine` says that the message belongs to the folder and address asked for. */
  datatype Message = Message(uid: Uid, t: int, mine: bool)

  datatype Cursor = Cursor(folder: string, address: string, t: int, uid: Uid, validity: nat, scan: Option<Uid>)

  function ScanOf(c: Cursor): Uid { if c.scan.Some? then c.scan.value else 0 }

  predicate AfterAnchor(m: Message, t: int, uid: Uid) {
    m.t > t || (m.t == t && m.uid > uid)
  }

  predicate Wanted(m: Message, c: Cursor) { m.mine && AfterAnchor(m, c.t, c.uid) }

  /** Oldest first: by receive time, then UID. */
  predicate Older(a: Message, b: Message) { a.t < b.t || (a.t == b.t && a.uid < b.uid) }

  // ------------------------------------------------------------------ sorting

  predicate IsLeast(u: Uid, s: set<Uid>) {
    u in s && forall v :: v in s ==> u <= v
  }

  function Least(s: set<Uid>): (u: Uid)
    requires s != {}
    ensures IsLeast(u, s)
  {
    LeastExists(s);
    var u :| IsLeast(u, s);
    u
  }

  lemma LeastExists(s: set<Uid>)
    requires s != {}
    ensures exists u :: IsLeast(u, s)
    decreases |s|
  {
    var x :| x in s;
    var rest := s - {x};
    if rest == {} {
      assert IsLeast(x, s) by {
        forall v | v in s
          ensures v == x
        {
          assert v in rest || v == x;
        }
      }
    } else {
      LeastExists(rest);
      var y :| IsLeast(y, rest);
      assert IsLeast(if x <= y then x else y, s) by {
        forall v | v in s
          ensures x <= v || y <= v
        {
          assert v in rest || v == x;
        }
      }
    }
  }

  predicate StrictlyAscending(us: seq<Uid>) {
    forall i, j :: 0 <= i < j < |us| ==> us[i] < us[j]
  }

  /** The search result in ascending order. */
  function Ascending(s: set<Uid>): (us: seq<Uid>)
    ensures StrictlyAscending(us) && forall u :: u in us <==> u in s
    decreases |s|
  {
    if s == {} then [] else
    var u := Least(s);
    [u] + Ascending(s - {u})
  }

  predicate Sorted(ms: seq<Message>) {
    forall i, j :: 0 <= i < j < |ms| ==> !Older(ms[j], ms[i])
  }

  function InsertByAge(m: Message, ms: seq<Message>): (r: seq<Message>)
    ensures multiset(r) == multiset{m} + multiset(ms)
  {
    if ms == [] || Older(m, ms[0]) then [m] + ms
    else
      assert ms == [ms[0]] + ms[1..];
      [ms[0]] + InsertByAge(m, ms[1..])
  }

  function SortByAge(ms: seq<Message>): (r: seq<Message>)
    ensures multiset(r) == multiset(ms)
  {
    if ms == [] then [] else
    assert ms == [ms[0]] + ms[1..];
    InsertByAge(ms[0], SortByAge(ms[1..]))
  }

  lemma {:induction false} InsertSorts(m: Message, ms: seq<Message>)
    requires Sorted(ms)
    ensures Sorted(InsertByAge(m, ms))
  {
    if ms != [] && !Older(m, ms[0]) {
      InsertSorts(m, ms[1..]);
      var rest := InsertByAge(m, ms[1..]);
      forall j | 0 <= j < |rest|
        ensures !Older(rest[j], ms[0])
      {
        assert rest[j] in multiset(rest);
        assert rest[j] == m || rest[j] in ms[1..];
      }
    }
  }

  lemma {:induction false} SortSorts(ms: seq<Message>)
    ensures Sorted(SortByAge(ms))
  {
    if ms != [] {
      SortSorts(ms[1..]);
      InsertSorts(ms[0], SortByAge(ms[1..]));
    }
  }

  // ------------------------------------------------------------------ one page

  /** What the scan of one batch collects, and the last UID it looked at. */
  datatype Scanned = Scanned(matched: seq<Message>, last: Uid)

  /** The scan as the source's promise reads: look at the batch in order, skip what is gone, stop at the
      message that fills the page. */
  function ScanFrom(batch: seq<Uid>, fetched: map<Uid, Message>, c: Cursor, limit: int, done: Scanned): Scanned
    decreases |batch|
  {
    if batch == [] then done else
    var u := batch[0];
    if u in fetched && Wanted(fetched[u], c) then
      var more := Scanned(done.matched + [fetched[u]], u);
      if |more.matched| >= limit then more else ScanFrom(batch[1..], fetched, c, limit, more)
    else ScanFrom(batch[1..], fetched, c, limit, Scanned(done.matched, u))
  }

  function Candidates(found: set<Uid>, scan: Uid): set<Uid> {
    set u | u in found && u > scan
  }

  function Batch(found: set<Uid>, scan: Uid, budget: int): (b: seq<Uid>)
    ensures StrictlyAscending(b) && forall u :: u in b ==> u in found && u > scan
  {
    var all := Ascending(Candidates(found, scan));
    var b := all[..if Max(1, budget) < |all| then Max(1, budget) else |all|];
    assert forall u :: u in b ==> u in all;
    b
  }

  datatype Page = Page(messages: seq<Message>, next: Cursor)

  datatype Refusal = LookupMiss

  /** One request against a mailbox of this validity; `found` is the search result and `fetched` what the
      fetch of the batch yields. */
  function PageOf(c: Cursor, folder: string, address: string, validity: Option<nat>, limit: int, budget: int,
                  found: set<Uid>, fetched: map<Uid, Message>): Result<Page, Refusal>
  {
    if c.folder != folder || c.address != address || validity != Some(c.validity) then Err(LookupMiss) else
    var s := ScanFrom(Batch(found, ScanOf(c), budget), fetched, c, limit, Scanned([], ScanOf(c)));
    Ok(Page(SortByAge(s.matched), c.(scan := Some(s.last))))
  }

  /** listMessagesSinceWith: the loops of the source. */
  method ListMessagesSince(c: Cursor, folder: string, address: string, validity: Option<nat>, limit: int, budget: int,
                           found: set<Uid>, fetched: map<Uid, Message>) returns (r: Result<Page, Refusal>)
    ensures r == PageOf(c, folder, address, validity, limit, budget, found, fetched)
  {
    if c.folder != folder || c.address != address { return Err(LookupMiss); }
    if validity.None? || c.validity != validity.value { return Err(LookupMiss); }
    var start := ScanOf(c);
    if found == {} {
      assert Batch(found, start, budget) == [];
      return Ok(Page([], c.(scan := Some(start))));
    }
    var candidates := Ascending(Candidates(found, start));
    if candidates == [] {
      assert Batch(found, start, budget) == [];
      return Ok(Page([], c.(scan := Some(start))));
    }
    var width := Max(1, budget);
    var batch := candidates[..if width < |candidates| then width else |candidates|];
    var matched: seq<Message>, last, i := [], start, 0;
    ghost var whole := ScanFrom(batch, fetched, c, limit, Scanned([], start));
    while i < |batch|
      invariant i <= |batch|
      invariant ScanFrom(batch[i..], fetched, c, limit, Scanned(matched, last)) == whole
    {
      var u := batch[i];
      last := u;
      if u in fetched && Wanted(fetched[u], c) {
        matched := matched + [fetched[u]];
        if |matched| >= limit {
          assert Scanned(matched, last) == whole;
          break;
        }
      }
      i := i + 1;
    }
    assert Scanned(matched, last) == whole;
    return Ok(Page(SortByAge(matched), c.(scan := Some(last))));
  }

  // ------------------------------------------------------------------ what one scan collects

  /** The messages of the batch up to `last` that were there and wanted. */
  predicate Collects(s: Scanned, batch: seq<Uid>, fetched: map<Uid, Message>, c: Cursor) {
    && (forall m :: m in s.matched ==> m.uid in batch && m.uid <= s.last && m.uid in fetched && fetched[m.uid] == m && Wanted(m, c))
    && (forall u :: u in batch && u <= s.last && u in fetched && Wanted(fetched[u], c) ==> fetched[u] in s.matched)
    && (forall i, j :: 0 <= i < j < |s.matched| ==> s.matched[i].uid < s.matched[j].uid)
  }

  lemma {:induction false} ScanCollects(done: seq<Uid>, batch: seq<Uid>, fetched: map<Uid, Message>, c: Cursor, limit: int, s: Scanned)
    requires StrictlyAscending(done + batch) && Collects(s, done, fetched, c)
    requires forall u :: u in fetched ==> fetched[u].uid == u
    requires (forall u :: u in done ==> u <= s.last) && (forall u :: u in batch ==> s.last < u)
    ensures var r := ScanFrom(batch, fetched, c, limit, s);
            && Collects(r, done + batch, fetched, c)
            && (r.last == s.last || r.last in batch) && (batch != [] ==> r.last in batch)
    decreases |batch|
  {
    if batch == [] {
      assert done + batch == done;
    } else {
      var u := batch[0];
      var next := Scanned(if u in fetched && Wanted(fetched[u], c) then s.matched + [fetched[u]] else s.matched, u);
      var seen := done + [u];
      assert seen + batch[1..] == done + batch;
      assert (done + batch)[|done|] == u;
      assert forall v :: v in batch[1..] ==> u < v by {
        forall v | v in batch[1..]
          ensures u < v
        {
          var k :| 0 <= k < |batch[1..]| && batch[1..][k] == v;
          assert (done + batch)[|done| + 1 + k] == v;
        }
      }
      assert u in batch;
      StepCollects(done, u, fetched, c, s);
      if !(u in fetched && Wanted(fetched[u], c) && |next.matched| >= limit) {
        ScanCollects(seen, batch[1..], fetched, c, limit, next);
      } else {
        forall v | v in done + batch && v <= u
          ensures v in seen
        {
        }
      }
    }
  }

  lemma StepCollects(done: seq<Uid>, u: Uid, fetched: map<Uid, Message>, c: Cursor, s: Scanned)
    requires Collects(s, done, fetched, c) && s.last < u
    requires forall v :: v in fetched ==> fetched[v].uid == v
    requires forall v :: v in done ==> v <= s.last
    ensures Collects(Scanned(if u in fetched && Wanted(fetched[u], c) then s.matched + [fetched[u]] else s.matched, u), done + [u], fetched, c)
  {
    var next := Scanned(if u in fetched && Wanted(fetched[u], c) then s.matched + [fetched[u]] else s.matched, u);
    forall v | v in done + [u] && v in fetched && Wanted(fetched[v], c)
      ensures fetched[v] in next.matched
    {
      if v == u { assert next.matched[|s.matched|] == fetched[u]; }
    }
  }

  lemma {:induction false} ScanFits(batch: seq<Uid>, fetched: map<Uid, Message>, c: Cursor, limit: int, s: Scanned)
    requires |s.matched| < Max(1, limit)
    ensures |ScanFrom(batch, fetched, c, limit, s).matched| <= Max(1, limit)
    decreases |batch|
  {
    if batch != [] {
      var u := batch[0];
      if u in fetched && Wanted(fetched[u], c) {
        if |s.matched| + 1 < limit { ScanFits(batch[1..], fetched, c, limit, Scanned(s.matched + [fetched[u]], u)); }
      } else {
        ScanFits(batch[1..], fetched, c, limit, Scanned(s.matched, u));
      }
    }
  }

  // ------------------------------------------------------------------ polling

  /** `present` is the mailbox, `ever` every message it has held in this validity, `next` is above all their
      UIDs; `returned` lists what pages gave, in order; `lost` are messages deleted before they were scanned. */
  datatype Inbox = Inbox(present: map<Uid, Message>, ever: map<Uid, Message>, next: Uid, c: Cursor,
                         returned: seq<Message>, lost: set<Uid>)

  /** A poll names what the search found and what was deleted between the search and the fetch. */
  datatype Event = Arrive(m: Message) | Delete(uid: Uid) | Poll(limit: int, budget: int, found: set<Uid>, vanished: set<Uid>)

  function Fetched(s: Inbox, e: Event): map<Uid, Message>
    requires e.Poll?
  {
    s.present - e.vanished
  }

  function PollScan(s: Inbox, e: Event): Scanned
    requires e.Poll?
  {
    ScanFrom(Batch(e.found, ScanOf(s.c), e.budget), Fetched(s, e), s.c, e.limit, Scanned([], ScanOf(s.c)))
  }

  /** A message not scanned yet that is deleted is lost to the poller. */
  function Remove(s: Inbox, gone: set<Uid>): Inbox {
    s.(present := s.present - gone, lost := s.lost + set u | u in gone && u in s.present && u > ScanOf(s.c))
  }

  function Step(s: Inbox, e: Event): Inbox {
    match e
    case Arrive(m) => s.(present := s.present[m.uid := m], ever := s.ever[m.uid := m], next := m.uid + 1)
    case Delete(uid) => Remove(s, {uid})
    case Poll(limit, budget, found, vanished) =>
      var r := PollScan(s, e);
      Remove(s, vanished).(c := s.c.(scan := Some(r.last)), returned := s.returned + SortByAge(r.matched))
  }

  /** New messages get higher UIDs. A search finds messages of the mailbox, among them all received since
      the anchor. */
  predicate Allowed(s: Inbox, e: Event) {
    match e
    case Arrive(m) => m.uid >= s.next
    case Delete(_) => true
    case Poll(_, _, found, _) => found <= s.present.Keys && forall u :: u in s.present && s.present[u].t >= s.c.t ==> u in found
  }

  function Run(s: Inbox, events: seq<Event>): Inbox
    decreases |events|
  {
    if events == [] then s else Run(Step(s, events[0]), events[1..])
  }

  predicate AllowedRun(s: Inbox, events: seq<Event>)
    decreases |events|
  {
    events == [] || (Allowed(s, events[0]) && AllowedRun(Step(s, events[0]), events[1..]))
  }

  predicate Keyed(ms: map<Uid, Message>, next: Uid) {
    forall u :: u in ms ==> ms[u].uid == u && 0 < u < next
  }

  predicate Start(s: Inbox) {
    Keyed(s.present, s.next) && s.ever == s.present && s.c.scan.None? && s.returned == [] && s.lost == {} && s.next > 0
  }

  predicate DistinctUids(ms: seq<Message>) {
    forall i, j :: 0 <= i < j < |ms| ==> ms[i].uid != ms[j].uid
  }

  /** Everything wanted at or below the watermark was returned or lost. */
  predicate Settled(s: Inbox) {
    forall u :: u in s.ever && u <= ScanOf(s.c) && Wanted(s.ever[u], s.c) ==> s.ever[u] in s.returned || u in s.lost
  }

  predicate Inv(s: Inbox) {
    && Keyed(s.present, s.next) && Keyed(s.ever, s.next) && ScanOf(s.c) < s.next
    && (forall u :: u in s.present ==> u in s.ever && s.ever[u] == s.present[u])
    && (forall u :: u in s.ever && u > ScanOf(s.c) && u !in s.present ==> u in s.lost)
    && (forall m :: m in s.returned ==> m.uid <= ScanOf(s.c) && m.uid in s.ever && s.ever[m.uid] == m && Wanted(m, s.c))
    && (forall u :: u in s.lost ==> u in s.ever && u !in s.present)
    && DistinctUids(s.returned)
    && Settled(s)
  }

  lemma RemoveKeepsInv(s: Inbox, gone: set<Uid>)
    requires Inv(s)
    ensures Inv(Remove(s, gone))
  {
  }

  lemma ArriveKeepsInv(s: Inbox, m: Message)
    requires Inv(s) && m.uid >= s.next
    ensures Inv(Step(s, Arrive(m)))
  {
  }

  /** What a poll scans, in terms of the mailbox. */
  lemma PollCollects(s: Inbox, e: Event)
    requires Inv(s) && e.Poll? && Allowed(s, e)
    ensures var r := PollScan(s, e);
            var b := Batch(e.found, ScanOf(s.c), e.budget);
            && Collects(r, b, Fetched(s, e), s.c) && ScanOf(s.c) <= r.last < s.next
            && (b != [] ==> r.last in b)
            && (b == [] ==> r == Scanned([], ScanOf(s.c)))
  {
    var b := Batch(e.found, ScanOf(s.c), e.budget);
    assert [] + b == b;
    ScanCollects([], b, Fetched(s, e), s.c, e.limit, Scanned([], ScanOf(s.c)));
  }

  lemma AscendingOrder(us: seq<Uid>, i: nat, j: nat)
    requires StrictlyAscending(us) && i < |us| && j < |us| && us[j] <= us[i]
    ensures j <= i
  {
  }

  /** A batch is the start of the candidates in UID order: it leaves no candidate below one of its own. */
  lemma BatchLeavesNoGap(found: set<Uid>, scan: Uid, budget: int, last: Uid, u: Uid)
    requires last in Batch(found, scan, budget) && u in found && scan < u <= last
    ensures u in Batch(found, scan, budget)
  {
    var all := Ascending(Candidates(found, scan));
    var b := Batch(found, scan, budget);
    assert u in all;
    var i :| 0 <= i < |b| && b[i] == last;
    var j :| 0 <= j < |all| && all[j] == u;
    assert all[i] == last;
    AscendingOrder(all, i, j);
    assert b[j] == u;
  }

  lemma SortedContents(ms: seq<Message>, m: Message)
    ensures m in SortByAge(ms) <==> m in ms
  {
    assert m in multiset(SortByAge(ms)) <==> m in multiset(ms);
  }

  lemma SortKeepsAll(ms: seq<Message>)
    ensures |SortByAge(ms)| == |ms| && forall m :: m in SortByAge(ms) <==> m in ms
  {
    assert |SortByAge(ms)| == |multiset(SortByAge(ms))| == |multiset(ms)| == |ms|;
    forall m
      ensures m in SortByAge(ms) <==> m in ms
    {
      SortedContents(ms, m);
    }
  }

  lemma SortKeepsDistinct(ms: seq<Message>)
    requires DistinctUids(ms)
    ensures DistinctUids(SortByAge(ms))
  {
    DistinctIsOnce(ms);
    SortKeepsAll(ms);
    OnceIsDistinct(SortByAge(ms));
  }

  ghost predicate Once(ms: seq<Message>) {
    && (forall m :: multiset(ms)[m] <= 1)
    && (forall m, n :: m in ms && n in ms && m.uid == n.uid ==> m == n)
  }

  lemma {:induction false} DistinctIsOnce(ms: seq<Message>)
    requires DistinctUids(ms)
    ensures Once(ms)
  {
    if ms != [] {
      var rest := ms[1..];
      DistinctIsOnce(rest);
      assert ms == [ms[0]] + rest;
      assert ms[0] !in rest;
      forall m
        ensures multiset(ms)[m] <= 1
      {
        assert multiset(ms)[m] == multiset([ms[0]])[m] + multiset(rest)[m];
        assert m == ms[0] ==> m !in multiset(rest);
      }
    }
  }

  lemma OnceIsDistinct(ms: seq<Message>)
    requires forall m :: multiset(ms)[m] <= 1
    requires forall m, n :: m in ms && n in ms && m.uid == n.uid ==> m == n
    ensures DistinctUids(ms)
  {
    forall i, j | 0 <= i < j < |ms|
      ensures ms[i].uid != ms[j].uid
    {
      if ms[i] == ms[j] { TwiceCounts(ms, i, j); }
    }
  }

  lemma TwiceCounts(ms: seq<Message>, i: nat, j: nat)
    requires i < j < |ms| && ms[i] == ms[j]
    ensures multiset(ms)[ms[i]] >= 2
  {
    assert ms == ms[..j] + ms[j..];
    assert ms[i] in ms[..j] && ms[j] in ms[j..];
    assert multiset(ms)[ms[i]] == multiset(ms[..j])[ms[i]] + multiset(ms[j..])[ms[i]];
  }

  lemma PollKeepsInv(s: Inbox, e: Event)
    requires Inv(s) && e.Poll? && Allowed(s, e)
    ensures Inv(Step(s, e))
  {
    PollCollects(s, e);
    var r := PollScan(s, e);
    var b := Batch(e.found, ScanOf(s.c), e.budget);
    var t := Step(s, e);
    SortKeepsAll(r.matched);
    SortKeepsDistinct(r.matched);
    assert Settled(t) by {
      forall u | u in t.ever && u <= ScanOf(t.c) && Wanted(t.ever[u], t.c)
        ensures t.ever[u] in t.returned || u in t.lost
      {
        if u > ScanOf(s.c) && u in Fetched(s, e) {
          assert u in e.found;
          if b != [] {
            BatchLeavesNoGap(e.found, ScanOf(s.c), e.budget, r.last, u);
            assert Fetched(s, e)[u] in r.matched;
          }
        }
      }
    }
  }

  lemma StepKeepsInv(s: Inbox, e: Event)
    requires Inv(s) && Allowed(s, e)
    ensures Inv(Step(s, e))
  {
    hide Inv;
    match e
    case Arrive(m) => ArriveKeepsInv(s, m);
    case Delete(uid) => RemoveKeepsInv(s, {uid});
    case Poll(_, _, _, _) => PollKeepsInv(s, e);
  }

  lemma {:induction false} RunKeepsInv(s: Inbox, events: seq<Event>)
    requires Inv(s) && AllowedRun(s, events)
    ensures Inv(Run(s, events))
    decreases |events|
  {
    hide Inv, Step, Allowed;
    if events != [] {
      StepKeepsInv(s, events[0]);
      RunKeepsInv(Step(s, events[0]), events[1..]);
    }
  }

  // ------------------------------------------------------------------ the main results

  /** For any limits, budgets, arrivals and deletions: each wanted message is returned at most once, only
      wanted ones are, and every wanted message that the watermark has passed was returned unless it was
      deleted before its scan. */
  lemma EachReturnedOnce(start: Inbox, events: seq<Event>)
    requires Start(start) && AllowedRun(start, events)
    ensures var s := Run(start, events);
            && DistinctUids(s.returned)
            && s.c.t == start.c.t && s.c.uid == start.c.uid
            && (forall m :: m in s.returned ==>
                  m.uid in s.ever && s.ever[m.uid] == m && m.mine && (m.t > s.c.t || (m.t == s.c.t && m.uid > s.c.uid)))
            && (forall u :: u in s.ever && u <= ScanOf(s.c) && s.ever[u].mine && (s.ever[u].t > s.c.t || (s.ever[u].t == s.c.t && u > s.c.uid)) ==>
                  s.ever[u] in s.returned || u in s.lost)
  {
    RunKeepsInv(start, events);
    AnchorStays(start, events);
  }

  lemma {:induction false} AnchorStays(s: Inbox, events: seq<Event>)
    ensures Run(s, events).c.(scan := s.c.scan) == s.c
    decreases |events|
  {
    if events != [] { AnchorStays(Step(s, events[0]), events[1..]); }
  }

  /** A poll with candidates left moves the watermark up; one without has returned every wanted message of
      the mailbox. So a mailbox at rest is drained by finitely many polls. */
  lemma PollsDrain(start: Inbox, events: seq<Event>, e: Event)
    requires Start(start) && AllowedRun(start, events) && e.Poll? && Allowed(Run(start, events), e)
    ensures var s := Run(start, events);
            if Candidates(e.found, ScanOf(s.c)) != {} then ScanOf(s.c) < ScanOf(Step(s, e).c) < s.next
            else forall u :: u in s.present && s.present[u].mine && (s.present[u].t > s.c.t || (s.present[u].t == s.c.t && u > s.c.uid)) ==>
              s.present[u] in s.returned
  {
    assert Inv(start);
    hide Inv, Step;
    RunKeepsInv(start, events);
    var s := Run(start, events);
    assert Keyed(s.present, s.next) by { InvIsKeyed(s); }
    if Candidates(e.found, ScanOf(s.c)) != {} { PollAdvances(s, e); } else { AllReturned(s, e); }
  }

  lemma InvIsKeyed(s: Inbox)
    requires Inv(s)
    ensures Keyed(s.present, s.next)
  {
  }

  lemma PollAdvances(s: Inbox, e: Event)
    requires Inv(s) && e.Poll? && Allowed(s, e) && Candidates(e.found, ScanOf(s.c)) != {}
    ensures ScanOf(s.c) < ScanOf(Step(s, e).c) < s.next
  {
    PollCollects(s, e);
    var cs := Candidates(e.found, ScanOf(s.c));
    var u :| u in cs;
    assert u in Ascending(cs);
    assert Batch(e.found, ScanOf(s.c), e.budget) != [];
  }

  lemma AllReturned(s: Inbox, e: Event)
    requires Inv(s) && e.Poll? && Allowed(s, e) && Candidates(e.found, ScanOf(s.c)) == {}
    ensures forall u :: u in s.present && Wanted(s.present[u], s.c) ==> s.present[u] in s.returned
  {
    forall u | u in s.present && Wanted(s.present[u], s.c)
      ensures s.present[u] in s.returned
    {
      assert u in e.found && u !in Candidates(e.found, ScanOf(s.c));
    }
  }

  // ------------------------------------------------------------------ one page, in its own terms

  /** A candidate of the batch: found, above the watermark, and with fewer others below it than the budget. */
  predicate InBatch(u: Uid, found: set<Uid>, scan: Uid, budget: int) {
    u in found && u > scan && |Between(found, scan, u)| < Max(1, budget)
  }

  function Between(found: set<Uid>, scan: Uid, u: Uid): set<Uid> { set v | v in found && scan < v < u }

  function Below(s: set<Uid>, u: Uid): set<Uid> { set v | v in s && v < u }

  lemma RankIsPosition(us: seq<Uid>, s: set<Uid>, i: nat)
    requires StrictlyAscending(us) && (forall u :: u in us <==> u in s) && i < |us|
    ensures |Below(s, us[i])| == i
    decreases i
  {
    if i == 0 {
      assert forall v :: v in us ==> us[0] <= v;
      assert Below(s, us[0]) == {};
    } else {
      RankIsPosition(us, s, i - 1);
      OneMoreBelow(us, s, i);
    }
  }

  lemma OneMoreBelow(us: seq<Uid>, s: set<Uid>, i: nat)
    requires StrictlyAscending(us) && (forall u :: u in us <==> u in s) && 0 < i < |us|
    ensures |Below(s, us[i])| == |Below(s, us[i - 1])| + 1
  {
    var low, high := us[i - 1], us[i];
    assert low in us && low < high;
    forall v | v in s && v < high
      ensures v <= low
    {
      var j :| 0 <= j < |us| && us[j] == v;
      AscendingOrder(us, i, j);
      BelowIsBefore(us, i, j);
    }
    hide StrictlyAscending;
    assert Below(s, high) == Below(s, low) + {low};
  }

  lemma BelowIsBefore(us: seq<Uid>, i: nat, j: nat)
    requires StrictlyAscending(us) && 0 < i < |us| && j < |us|
    ensures us[j] < us[i] ==> us[j] <= us[i - 1]
  {
    if j > i { assert us[i] < us[j]; }
  }

  lemma PrefixHas(us: seq<Uid>, n: nat, i: nat)
    requires n <= |us| && i < |us|
    ensures i < n ==> us[i] in us[..n]
  {
    if i < n { assert us[..n][i] == us[i]; }
  }

  /** The batch is the lowest candidates, as many as the budget allows. */
  lemma BatchIsLowest(found: set<Uid>, scan: Uid, budget: int, u: Uid)
    ensures u in Batch(found, scan, budget) <==> InBatch(u, found, scan, budget)
  {
    var cs := Candidates(found, scan);
    var all := Ascending(cs);
    var b := Batch(found, scan, budget);
    if u in cs {
      assert u in all;
      var i :| 0 <= i < |all| && all[i] == u;
      RankIsPosition(all, cs, i);
      assert Below(cs, u) == Between(found, scan, u);
      if u in b {
        var j :| 0 <= j < |b| && b[j] == u;
        assert all[j] == u;
        AscendingOrder(all, i, j);
        AscendingOrder(all, j, i);
      } else {
        PrefixHas(all, |b|, i);
        assert |b| == Max(1, budget) <= i;
      }
    }
  }

  /** The scan stops short of the end of its batch only when the page is full. */
  lemma {:induction false} StopsOnlyWhenFull(batch: seq<Uid>, fetched: map<Uid, Message>, c: Cursor, limit: int, s: Scanned)
    ensures var r := ScanFrom(batch, fetched, c, limit, s);
            |r.matched| < limit ==> r.last == if batch == [] then s.last else Last(batch)
    decreases |batch|
  {
    if batch != [] {
      var u := batch[0];
      StopsOnlyWhenFull(batch[1..], fetched, c, limit, Scanned(if u in fetched && Wanted(fetched[u], c) then s.matched + [fetched[u]] else s.matched, u));
    }
  }

  lemma ScanIsExact(batch: seq<Uid>, fetched: map<Uid, Message>, c: Cursor, limit: int)
    requires StrictlyAscending(batch) && forall u :: u in batch ==> ScanOf(c) < u
    requires forall u :: u in fetched ==> fetched[u].uid == u
    ensures var r := ScanFrom(batch, fetched, c, limit, Scanned([], ScanOf(c)));
            && (forall m :: m in r.matched <==> m.uid in batch && m.uid <= r.last && m.uid in fetched && fetched[m.uid] == m && Wanted(m, c))
            && DistinctUids(r.matched)
  {
    assert [] + batch == batch;
    ScanCollects([], batch, fetched, c, limit, Scanned([], ScanOf(c)));
  }

  /** The messages in the order of the page: by receive time, those of one moment by UID. */
  predicate OldestFirst(ms: seq<Message>) {
    forall i, j :: 0 <= i < j < |ms| ==> ms[i].t < ms[j].t || (ms[i].t == ms[j].t && ms[i].uid < ms[j].uid)
  }

  lemma SortedIsOldestFirst(ms: seq<Message>)
    requires DistinctUids(ms)
    ensures OldestFirst(SortByAge(ms))
  {
    SortSorts(ms);
    SortKeepsDistinct(ms);
  }

  /** A page is refused exactly for a foreign cursor. Otherwise it is oldest first, holds at most the limit (at
      least one) and exactly the messages that were in its batch up to the new watermark, belong there and lie
      after the anchor, by time and for equal times by UID; the batch is the lowest candidates within the
      budget, and is left unfinished only when the page is full. */
  lemma PageIsOrdered(c: Cursor, folder: string, address: string, validity: Option<nat>, limit: int, budget: int,
                      found: set<Uid>, fetched: map<Uid, Message>)
    requires forall u :: u in fetched ==> fetched[u].uid == u
    ensures var p := PageOf(c, folder, address, validity, limit, budget, found, fetched);
            && (p.Ok? <==> c.folder == folder && c.address == address && validity == Some(c.validity))
            && (p.Ok? ==>
                  var scan := ScanOf(p.value.next);
                  && OldestFirst(p.value.messages) && |p.value.messages| <= Max(1, limit)
                  && p.value.next == c.(scan := Some(scan))
                  && (forall m :: m in p.value.messages <==>
                        && InBatch(m.uid, found, ScanOf(c), budget) && m.uid <= scan && m.uid in fetched && fetched[m.uid] == m
                        && m.mine && (m.t > c.t || (m.t == c.t && m.uid > c.uid)))
                  && (|p.value.messages| < limit ==> forall u: Uid :: InBatch(u, found, ScanOf(c), budget) ==> u <= scan))
  {
    hide ScanFrom, SortByAge, OldestFirst, InBatch, Batch;
    var b := Batch(found, ScanOf(c), budget);
    ScanIsExact(b, fetched, c, limit);
    ScanFits(b, fetched, c, limit, Scanned([], ScanOf(c)));
    StopsOnlyWhenFull(b, fetched, c, limit, Scanned([], ScanOf(c)));
    var r := ScanFrom(b, fetched, c, limit, Scanned([], ScanOf(c)));
    SortedIsOldestFirst(r.matched);
    SortKeepsAll(r.matched);
    forall u
      ensures u in b <==> InBatch(u, found, ScanOf(c), budget)
    {
      BatchIsLowest(found, ScanOf(c), budget, u);
    }
    LastIsHighest(b);
  }

  lemma LastIsHighest(us: seq<Uid>)
    requires StrictlyAscending(us)
    ensures us != [] ==> forall u :: u in us ==> u <= Last(us)
  {
  }
}
