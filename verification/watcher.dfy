/** The multi-sink mail watcher (dispatcher path of watchConnection in notification-watcher.ts): one
    fetch stream feeds many sinks, each with its own watermark and its own blocked message. */
module Watcher {
  import opened Common

  // ------------------------------------------------------------------ one sink

  datatype Failure = Failure(uid: nat, since: int)

  datatype Watermark = Watermark(uid: Option<nat>, uidValidity: Option<nat>, failure: Option<Failure>, skips: nat)

  /** How a sink was done with a message. */
  datatype Kind = Delivered | Skipped | AbandonedAfter(waited: int) | AbandonedExpunged

  datatype Terminal = Terminal(uid: nat, kind: Kind)

  /** A sink as seen from outside: its watermark, the mails handed to it, and its terminal outcomes in
      the current mailbox generation, which starts above `anchor`. */
  datatype Sink = Sink(wm: Watermark, handled: seq<nat>, done: seq<Terminal>, anchor: nat)

  const ServiceFailureMaxMs := 600000

  const NewSink := Sink(Watermark(None, None, None, 0), [], [], 0)

  function HighWater(uids: seq<nat>): (m: nat)
    ensures forall u :: u in uids ==> u <= m
    ensures m == 0 || m in uids
  {
    if uids == [] then 0 else
    var rest := HighWater(uids[1..]);
    assert forall u :: u in uids ==> u == uids[0] || u in uids[1..];
    if uids[0] > rest then uids[0] else rest
  }

  /** unseenWatcherUids, the watermark part: anchor on first sight, restart below a new generation. */
  function Anchor(s: Sink, uids: seq<nat>, validity: Option<nat>): Sink {
    if validity.Some? && s.wm.uidValidity != validity then
      var start := if s.wm.uidValidity.None? then HighWater(uids) else 0;
      Sink(s.wm.(uidValidity := validity, failure := None, uid := Some(start)), s.handled, [], start)
    else if s.wm.uid.None? then
      Sink(s.wm.(uid := Some(HighWater(uids))), s.handled, [], HighWater(uids))
    else s
  }

  /** ... and the list part. On first sight the anchored watermark leaves nothing above it. */
  predicate Unseen(s: Sink, uids: seq<nat>, u: nat) {
    u in uids && (s.wm.uid.Some? ==> u > s.wm.uid.value)
  }

  function Raise(s: Sink, u: nat, kind: Kind): Sink {
    var top := if s.wm.uid.Some? && s.wm.uid.value > u then s.wm.uid.value else u;
    s.(wm := s.wm.(uid := Some(top), failure := None), done := s.done + [Terminal(u, kind)])
  }

  /** reconcileServiceFailures for one sink. */
  function Reconcile(s: Sink, uids: seq<nat>, now: int): Sink {
    if s.wm.failure.None? then s else
    var f := s.wm.failure.value;
    var waited := Max(0, now - f.since);
    if f.uid !in uids then Raise(s, f.uid, AbandonedExpunged)
    else if waited >= ServiceFailureMaxMs then Raise(s, f.uid, AbandonedAfter(waited))
    else s
  }

  /** What `handleMail` did: it returned, threw a service failure, or threw anything else. */
  datatype Reply = Accepted | ServiceFailed | Rejected

  datatype Answer = Answer(reply: Reply, now: int)

  /** Whether the message was settled for the sink, left untouched behind a blocked one, or failed. */
  datatype Vote = Settled | Behind | Failing

  predicate AlreadySeen(s: Sink, u: nat) {
    s.wm.uid.Some? && u <= s.wm.uid.value && !(s.wm.failure.Some? && s.wm.failure.value.uid == u)
  }

  predicate Blocked(s: Sink, u: nat) {
    s.wm.failure.Some? && s.wm.failure.value.uid < u
  }

  /** The body of the sink loop for one message. */
  function Offer(s: Sink, u: nat, a: Answer): (Sink, Vote) {
    if AlreadySeen(s, u) then (s, Settled)
    else if Blocked(s, u) then (s, Behind)
    else
      var h := s.(handled := s.handled + [u]);
      match a.reply
      case Accepted => (Raise(h, u, Delivered).(wm := Raise(h, u, Delivered).wm.(skips := 0)), Settled)
      case Rejected => (Raise(h.(wm := h.wm.(skips := h.wm.skips + 1)), u, Skipped), Settled)
      case ServiceFailed =>
        if h.wm.failure.None? || h.wm.failure.value.uid != u
        then (h.(wm := h.wm.(failure := Some(Failure(u, a.now)))), Failing)
        else
          var waited := Max(0, a.now - h.wm.failure.value.since);
          if waited >= ServiceFailureMaxMs then (Raise(h, u, AbandonedAfter(waited)), Settled) else (h, Failing)
  }

  /** Sink number `k` on its own: every message of the batch in turn, nothing ever thrown. */
  function Alone(s: Sink, k: nat, msgs: seq<nat>, answers: (nat, nat) -> Answer): Sink {
    if msgs == [] then s else
    var last := |msgs| - 1;
    Offer(Alone(s, k, msgs[..last], answers), msgs[last], answers(k, msgs[last])).0
  }

  // ------------------------------------------------------------------ many sinks, one stream

  predicate Ascending(uids: seq<nat>) {
    forall i, j :: 0 <= i < j < |uids| ==> uids[i] < uids[j]
  }

  lemma AscendingAppend(r: seq<nat>, x: nat)
    requires Ascending(r) && forall u :: u in r ==> u < x
    ensures Ascending(r + [x])
  {
    assert forall i :: 0 <= i < |r| ==> r[i] in r;
  }

  /** The members of `pending` below `hi`, sorted. */
  function Sorted(pending: set<nat>, hi: nat): (r: seq<nat>)
    ensures Ascending(r)
    ensures forall u :: u in r <==> u in pending && u < hi
  {
    if hi == 0 then [] else
    var below := Sorted(pending, hi - 1);
    AscendingAppend(below, hi - 1);
    if hi - 1 in pending then below + [hi - 1] else below
  }

  /** getUnionPending: reconcile every sink, then anchor every sink and collect what any has not seen. */
  method GetUnionPending(sinks: array<Sink>, uids: seq<nat>, validity: Option<nat>, now: int) returns (pending: seq<nat>)
    modifies sinks
    ensures forall k :: 0 <= k < sinks.Length ==> sinks[k] == Anchor(Reconcile(old(sinks[k]), uids, now), uids, validity)
    ensures Ascending(pending)
    ensures forall u :: u in pending <==> u in uids && exists k :: 0 <= k < sinks.Length && (sinks[k].wm.uid.Some? ==> u > sinks[k].wm.uid.value)
  {
    for k := 0 to sinks.Length
      invariant forall i :: 0 <= i < k ==> sinks[i] == Reconcile(old(sinks[i]), uids, now)
      invariant forall i :: k <= i < sinks.Length ==> sinks[i] == old(sinks[i])
    {
      sinks[k] := Reconcile(sinks[k], uids, now);
    }
    var union: set<nat> := {};
    for k := 0 to sinks.Length
      invariant forall i :: 0 <= i < k ==> sinks[i] == Anchor(Reconcile(old(sinks[i]), uids, now), uids, validity)
      invariant forall i :: k <= i < sinks.Length ==> sinks[i] == Reconcile(old(sinks[i]), uids, now)
      invariant forall u :: u in union <==> exists i :: 0 <= i < k && Unseen(sinks[i], uids, u)
    {
      sinks[k] := Anchor(sinks[k], uids, validity);
      union := union + set u | u in uids && Unseen(sinks[k], uids, u);
    }
    pending := Sorted(union, HighWater(uids) + 1);
  }

  /** Every sink either failed on this message or stands behind an earlier failed one. */
  ghost predicate AllStuck(sinks: seq<Sink>, u: nat) {
    forall k :: 0 <= k < |sinks| ==> sinks[k].wm.failure.Some? && sinks[k].wm.failure.value.uid <= u
  }

  /** One message for all sinks; `stop` is the condition under which the source throws. */
  method OfferAll(sinks: array<Sink>, u: nat, answers: (nat, nat) -> Answer) returns (stop: bool)
    modifies sinks
    ensures forall k: nat :: k < sinks.Length ==> sinks[k] == Offer(old(sinks[k]), u, answers(k, u)).0
    ensures stop <==> sinks.Length > 0
                      && (forall k: nat :: k < sinks.Length ==> Offer(old(sinks[k]), u, answers(k, u)).1 != Settled)
                      && (exists k: nat :: k < sinks.Length && Offer(old(sinks[k]), u, answers(k, u)).1 == Failing)
  {
    var allFailed, lastError := sinks.Length > 0, false;
    for k := 0 to sinks.Length
      invariant forall j: nat :: j < k ==> sinks[j] == Offer(old(sinks[j]), u, answers(j, u)).0
      invariant forall j: nat :: k <= j < sinks.Length ==> sinks[j] == old(sinks[j])
      invariant allFailed <==> sinks.Length > 0 && forall j: nat :: j < k ==> Offer(old(sinks[j]), u, answers(j, u)).1 != Settled
      invariant lastError <==> exists j: nat :: j < k && Offer(old(sinks[j]), u, answers(j, u)).1 == Failing
    {
      var (next, vote) := Offer(sinks[k], u, answers(k, u));
      sinks[k] := next;
      if vote == Settled { allFailed := false; }
      if vote == Failing { lastError := true; }
    }
    stop := allFailed && lastError;
  }

  /** The fetch loop over a batch. It may throw and leave the rest of the batch unread, yet every sink
      ends exactly as if it had been offered the whole batch on its own. */
  method DeliverBatch(sinks: array<Sink>, msgs: seq<nat>, answers: (nat, nat) -> Answer) returns (thrown: bool)
    requires Ascending(msgs)
    modifies sinks
    ensures forall k: nat :: k < sinks.Length ==> sinks[k] == Alone(old(sinks[k]), k, msgs, answers)
    ensures thrown ==> sinks.Length > 0 && exists u :: u in msgs && AllStuck(sinks[..], u)
  {
    for i := 0 to |msgs|
      invariant forall k: nat :: k < sinks.Length ==> sinks[k] == Alone(old(sinks[k]), k, msgs[..i], answers)
    {
      ghost var before := sinks[..];
      assert msgs[..i + 1][..i] == msgs[..i];
      var stop := OfferAll(sinks, msgs[i], answers);
      assert forall k: nat :: k < sinks.Length ==> sinks[k] == Alone(old(sinks[k]), k, msgs[..i + 1], answers);
      if stop {
        forall k: nat | k < sinks.Length
          ensures sinks[k].wm.failure.Some? && sinks[k].wm.failure.value.uid <= msgs[i]
          ensures sinks[k] == Alone(old(sinks[k]), k, msgs, answers)
        {
          StuckAfterOffer(before[k], msgs[i], answers(k, msgs[i]));
          StuckStays(old(sinks[k]), k, msgs, i + 1, answers);
        }
        assert AllStuck(sinks[..], msgs[i]);
        return true;
      }
    }
    assert msgs[..|msgs|] == msgs;
    return false;
  }

  lemma StuckAfterOffer(s: Sink, u: nat, a: Answer)
    requires Offer(s, u, a).1 != Settled
    ensures var t := Offer(s, u, a).0; t.wm.failure.Some? && t.wm.failure.value.uid <= u
  {
  }

  /** Once a sink is stuck at or before a message, no later message of the batch touches it. */
  lemma {:induction false} StuckStays(s: Sink, k: nat, msgs: seq<nat>, i: nat, answers: (nat, nat) -> Answer)
    requires Ascending(msgs) && 0 < i <= |msgs|
    requires var t := Alone(s, k, msgs[..i], answers); t.wm.failure.Some? && t.wm.failure.value.uid <= msgs[i - 1]
    ensures Alone(s, k, msgs, answers) == Alone(s, k, msgs[..i], answers)
    decreases |msgs|
  {
    if i == |msgs| {
      assert msgs[..i] == msgs;
    } else {
      var last := |msgs| - 1;
      assert msgs[..last][..i] == msgs[..i];
      StuckStays(s, k, msgs[..last], i, answers);
    }
  }

  // ------------------------------------------------------------------ non-interference

  /** A pending service failure lies above the watermark, so no seen message can be the blocked one. */
  predicate FailureAbove(s: Sink) {
    s.wm.uid.Some? && (s.wm.failure.Some? ==> s.wm.failure.value.uid > s.wm.uid.value)
  }

  /** The messages of a batch above a watermark. */
  function Above(msgs: seq<nat>, low: nat): (r: seq<nat>)
    ensures forall u :: u in r <==> u in msgs && u > low
  {
    if msgs == [] then [] else
    var last := |msgs| - 1;
    var below := Above(msgs[..last], low);
    if msgs[last] > low then below + [msgs[last]] else below
  }

  lemma {:induction false} AboveAscends(msgs: seq<nat>, low: nat)
    requires Ascending(msgs)
    ensures Ascending(Above(msgs, low))
  {
    if msgs != [] {
      var last := |msgs| - 1;
      AboveAscends(msgs[..last], low);
      assert forall u :: u in Above(msgs[..last], low) ==> u in msgs[..last];
      assert forall u :: u in msgs[..last] ==> u < msgs[last];
      AscendingAppend(Above(msgs[..last], low), msgs[last]);
    }
  }

  lemma AloneAppend(s: Sink, k: nat, msgs: seq<nat>, u: nat, answers: (nat, nat) -> Answer)
    ensures Alone(s, k, msgs + [u], answers) == Offer(Alone(s, k, msgs, answers), u, answers(k, u)).0
  {
    assert (msgs + [u])[..|msgs|] == msgs;
  }

  lemma OfferKeepsFailureAbove(s: Sink, u: nat, a: Answer)
    requires FailureAbove(s)
    ensures var t := Offer(s, u, a).0;
            FailureAbove(t) && t.wm.uid.value >= s.wm.uid.value && (u <= s.wm.uid.value ==> t == s)
  {
  }

  /** Messages that only other sinks still wait for change nothing for this one, and its failure stays
      above its watermark throughout. */
  lemma {:induction false} OthersMailIsIgnored(s: Sink, k: nat, msgs: seq<nat>, answers: (nat, nat) -> Answer)
    requires FailureAbove(s)
    ensures var t := Alone(s, k, msgs, answers);
            && t == Alone(s, k, Above(msgs, s.wm.uid.value), answers)
            && FailureAbove(t) && t.wm.uid.value >= s.wm.uid.value
    decreases |msgs|
  {
    if msgs != [] {
      var last := |msgs| - 1;
      OthersMailIsIgnored(s, k, msgs[..last], answers);
      OfferKeepsFailureAbove(Alone(s, k, msgs[..last], answers), msgs[last], answers(k, msgs[last]));
      var own := Above(msgs[..last], s.wm.uid.value);
      if msgs[last] > s.wm.uid.value {
        AloneAppend(s, k, own, msgs[last], answers);
      }
    }
  }

  lemma {:induction false} SameMembersSameOrder(a: seq<nat>, b: seq<nat>)
    requires Ascending(a) && Ascending(b) && forall u :: u in a <==> u in b
    ensures a == b
    decreases |a|
  {
    assert b != [] ==> b[0] in b;
    if a != [] {
      assert a[0] in b && b != [];
      assert b[0] in a;
      assert forall u :: u in a[1..] <==> u in a && u > a[0];
      assert forall u :: u in b[1..] <==> u in b && u > b[0];
      SameMembersSameOrder(a[1..], b[1..]);
    }
  }

  lemma AnchorKeepsFailureAbove(s: Sink, uids: seq<nat>, validity: Option<nat>, now: int)
    requires s.wm.uid.Some? ==> FailureAbove(s)
    requires s.wm.uid.None? ==> s.wm.failure.None?
    ensures FailureAbove(Anchor(Reconcile(s, uids, now), uids, validity))
  {
  }

  /** Sharing the stream changes nothing for a sink: being fed the union of what all sinks wait for, or
      only what it waits for itself, it ends with the same watermark, failure, handled mail and outcomes.
      `union` and `own` are the fetched batches: the pending messages still present, in ascending order. */
  lemma NonInterference(before: seq<Sink>, k: nat, uids: seq<nat>, validity: Option<nat>, now: int,
                        present: set<nat>, union: seq<nat>, own: seq<nat>, answers: (nat, nat) -> Answer)
    requires k < |before|
    requires forall i :: 0 <= i < |before| ==> (before[i].wm.uid.Some? ==> FailureAbove(before[i])) && (before[i].wm.uid.None? ==> before[i].wm.failure.None?)
    requires Ascending(union) && Ascending(own)
    requires forall u :: u in union <==> u in present && exists i :: 0 <= i < |before| && Unseen(Anchor(Reconcile(before[i], uids, now), uids, validity), uids, u)
    requires forall u :: u in own <==> u in present && Unseen(Anchor(Reconcile(before[k], uids, now), uids, validity), uids, u)
    ensures var s := Anchor(Reconcile(before[k], uids, now), uids, validity);
            Alone(s, k, union, answers) == Alone(s, k, own, answers)
  {
    var s := Anchor(Reconcile(before[k], uids, now), uids, validity);
    AnchorKeepsFailureAbove(before[k], uids, validity, now);
    OthersMailIsIgnored(s, k, union, answers);
    AboveAscends(union, s.wm.uid.value);
    SameMembersSameOrder(Above(union, s.wm.uid.value), own);
  }

  // ------------------------------------------------------------------ accounting over a whole run

  /** The mailbox: the present UIDs, the next UID to be assigned, and its generation. */
  datatype Mailbox = Mailbox(present: set<nat>, next: nat, validity: nat)

  /** One sink reading one mailbox. `pending` is the rest of the batch being fetched, `snap` the next UID
      when that batch was searched at `polled`, `reached` the last UID the fetch has passed. */
  datatype System = System(box: Mailbox, sink: Sink, pending: seq<nat>, snap: nat, polled: int, reached: nat)

  datatype Event =
    | Arrive(uid: nat)
    | Expunge(uid: nat)
    | Recreate(validity: nat)
    | Poll(now: int)                       // search, reconcile, anchor, start a batch
    | Fetch(reply: Reply, now: int)        // the next message of the batch, if it is still there
    | Disconnect

  function SearchAll(box: Mailbox): seq<nat> { Sorted(box.present, box.next) }

  function Pend(s: Sink, uids: seq<nat>): seq<nat> {
    if s.wm.uid.Some? then Above(uids, s.wm.uid.value) else uids
  }

  /** One step; an event that is not enabled changes nothing. UIDs only ever grow within a generation. */
  function Step(s: System, e: Event): System {
    match e
    case Arrive(u) =>
      if u >= s.box.next && u > 0 then s.(box := s.box.(present := s.box.present + {u}, next := u + 1)) else s
    case Expunge(u) => s.(box := s.box.(present := s.box.present - {u}))
    case Recreate(v) =>
      if v > s.box.validity then s.(box := Mailbox({}, 1, v), pending := []) else s
    case Poll(now) =>
      var uids := SearchAll(s.box);
      var sink := Anchor(Reconcile(s.sink, uids, now), uids, Some(s.box.validity));
      s.(sink := sink, pending := Pend(sink, uids), snap := s.box.next, polled := now, reached := 0)
    case Fetch(reply, now) =>
      if s.pending == [] then s else
      var u := s.pending[0];
      var t := s.(pending := s.pending[1..], reached := u);
      if u in s.box.present then t.(sink := Offer(s.sink, u, Answer(reply, now)).0) else t
    case Disconnect => s.(pending := [])
  }

  function Run(s: System, events: seq<Event>): System
    decreases |events|
  {
    if events == [] then s else Run(Step(s, events[0]), events[1..])
  }

  const Start := System(Mailbox({}, 1, 1), NewSink, [], 1, 0, 0)

  ghost predicate Finished(s: Sink, u: nat) {
    exists i :: 0 <= i < |s.done| && s.done[i].uid == u
  }

  /** The outcomes of this generation: strictly increasing, between anchor and watermark. */
  ghost predicate LogInv(s: Sink) {
    && s.wm.uid.Some? && s.anchor <= s.wm.uid.value
    && (forall i, j :: 0 <= i < j < |s.done| ==> s.done[i].uid < s.done[j].uid)
    && (forall i :: 0 <= i < |s.done| ==> s.anchor < s.done[i].uid <= s.wm.uid.value)
    && (forall i :: 0 <= i < |s.done| && s.done[i].kind.AbandonedAfter? ==> s.done[i].kind.waited >= ServiceFailureMaxMs)
  }

  ghost predicate SinkInv(box: Mailbox, s: Sink) {
    && LogInv(s) && FailureAbove(s)
    && s.wm.uid.value < box.next
    && (s.wm.failure.Some? ==> s.wm.failure.value.uid < box.next)
    && (forall u :: u in box.present && s.anchor < u <= s.wm.uid.value ==> Finished(s, u))
    && (s.wm.failure.Some? ==> forall u :: u in box.present ==> !(s.wm.uid.value < u < s.wm.failure.value.uid))
  }

  /** The batch still holds every unseen message it has not passed; what it has passed without settling
      it stands at or behind the blocked message. */
  ghost predicate BatchInv(s: System)
    requires s.sink.wm.uid.Some?
  {
    && Ascending(s.pending) && s.snap <= s.box.next
    && (forall u :: u in s.pending ==> s.reached < u < s.snap)
    && (s.pending != [] ==> forall u :: u in s.box.present && s.sink.wm.uid.value < u < s.snap ==>
          u in s.pending || (u <= s.reached && s.sink.wm.failure.Some? && s.sink.wm.failure.value.uid <= u))
  }

  ghost predicate Inv(s: System) {
    && (forall u :: u in s.box.present ==> 0 < u < s.box.next) && s.box.next > 0
    && (s.sink.wm.uidValidity.None? ==> s.sink == NewSink && s.pending == [])
    && (s.sink.wm.uidValidity.Some? ==> s.sink.wm.uidValidity.value <= s.box.validity && s.sink.wm.uid.Some?)
    && (s.sink.wm.uidValidity == Some(s.box.validity) ==> SinkInv(s.box, s.sink) && BatchInv(s))
    && (s.sink.wm.uidValidity != Some(s.box.validity) ==> s.pending == [])
  }

  /** A terminal outcome for a message that nothing unseen and present lies below. */
  lemma RaiseKeepsSinkInv(box: Mailbox, s: Sink, t: Sink, u: nat, kind: Kind)
    requires SinkInv(box, s) && s.wm.uid.value < u < box.next
    requires forall v :: v in box.present ==> !(s.wm.uid.value < v < u)
    requires kind.AbandonedAfter? ==> kind.waited >= ServiceFailureMaxMs
    requires t.wm.uid == Some(u) && t.wm.failure.None? && t.anchor == s.anchor && t.done == s.done + [Terminal(u, kind)]
    ensures SinkInv(box, t)
  {
    assert t.done[|s.done|].uid == u;
    assert forall i :: 0 <= i < |s.done| ==> t.done[i] == s.done[i];
    forall v | v in box.present && t.anchor < v <= u ensures Finished(t, v) {
      if v < u {
        assert Finished(s, v);
        var i :| 0 <= i < |s.done| && s.done[i].uid == v;
        assert t.done[i].uid == v;
      }
    }
  }

  lemma ReconcileKeepsSinkInv(box: Mailbox, s: Sink, now: int)
    requires SinkInv(box, s) && forall u :: u in box.present ==> u < box.next
    ensures SinkInv(box, Reconcile(s, SearchAll(box), now))
  {
    if s.wm.failure.Some? {
      var f := s.wm.failure.value;
      var waited := Max(0, now - f.since);
      if f.uid !in SearchAll(box) {
        RaiseKeepsSinkInv(box, s, Raise(s, f.uid, AbandonedExpunged), f.uid, AbandonedExpunged);
      } else if waited >= ServiceFailureMaxMs {
        RaiseKeepsSinkInv(box, s, Raise(s, f.uid, AbandonedAfter(waited)), f.uid, AbandonedAfter(waited));
      }
    }
  }

  lemma PollKeepsInv(s: System, now: int)
    requires Inv(s)
    ensures Inv(Step(s, Poll(now)))
  {
    var uids := SearchAll(s.box);
    var r := Reconcile(s.sink, uids, now);
    var t := Step(s, Poll(now));
    if s.sink.wm.uidValidity == Some(s.box.validity) {
      ReconcileKeepsSinkInv(s.box, s.sink, now);
    }
    AboveAscends(uids, t.sink.wm.uid.value);
  }

  predicate StuckAtOrBelow(s: Sink, v: int) {
    s.wm.failure.Some? && s.wm.failure.value.uid <= v
  }

  /** The message offered is unseen, and nothing present and unseen lies below it. */
  lemma HeadIsLowest(s: System, u: nat)
    requires Inv(s) && s.pending != [] && u == s.pending[0]
    requires s.sink.wm.uid.Some? && s.sink.wm.uid.value < u && !Blocked(s.sink, u)
    ensures u < s.box.next && forall v :: v in s.box.present ==> !(s.sink.wm.uid.value < v < u)
  {
    assert u in s.pending;
    forall v | v in s.box.present ensures !(s.sink.wm.uid.value < v < u) {
      assert v in s.pending ==> u <= v;
      assert s.sink.wm.uid.value < v < u ==>
        v in s.pending || (v <= s.reached && StuckAtOrBelow(s.sink, v));
    }
  }

  lemma OfferKeepsSinkInv(s: System, u: nat, a: Answer)
    requires Inv(s) && s.pending != [] && u == s.pending[0] && u in s.box.present
    ensures SinkInv(s.box, Offer(s.sink, u, a).0)
  {
    if !AlreadySeen(s.sink, u) && !Blocked(s.sink, u) {
      HeadIsLowest(s, u);
      var t := Offer(s.sink, u, a).0;
      if t.done != s.sink.done {
        RaiseKeepsSinkInv(s.box, s.sink, t, u, Last(t.done).kind);
      }
    }
  }

  lemma FetchKeepsInv(s: System, reply: Reply, now: int)
    requires Inv(s)
    ensures Inv(Step(s, Fetch(reply, now)))
  {
    if s.pending != [] {
      var u := s.pending[0];
      var t := Step(s, Fetch(reply, now));
      assert s.pending == [u] + t.pending;
      assert forall v :: v in s.pending <==> v == u || v in t.pending;
      if u in s.box.present {
        OfferKeepsSinkInv(s, u, Answer(reply, now));
      }
      FetchKeepsBatch(s, t, u, Answer(reply, now));
    }
  }

  lemma TailAscends(p: seq<nat>)
    requires p != [] && Ascending(p)
    ensures Ascending(p[1..]) && p[0] in p
    ensures forall v :: v in p[1..] ==> v in p && p[0] < v
    ensures forall v :: v in p ==> v == p[0] || v in p[1..]
  {
    assert p == [p[0]] + p[1..];
    assert forall i :: 0 <= i < |p[1..]| ==> p[1..][i] == p[i + 1];
  }

  lemma FetchKeepsBatch(s: System, t: System, u: nat, a: Answer)
    requires s.sink.wm.uid.Some? && FailureAbove(s.sink) && BatchInv(s) && s.pending != [] && u == s.pending[0]
    requires t.pending == s.pending[1..] && t.reached == u && t.box == s.box && t.snap == s.snap
    requires t.sink == (if u in s.box.present then Offer(s.sink, u, a).0 else s.sink)
    ensures t.sink.wm.uid.Some? && BatchInv(t)
  {
    hide Offer;
    OfferKeepsFailureAbove(s.sink, u, a);
    TailAscends(s.pending);
    hide Ascending;
    forall v | v in t.box.present && t.sink.wm.uid.value < v < t.snap
      ensures v in t.pending || (v <= u && t.sink.wm.failure.Some? && t.sink.wm.failure.value.uid <= v)
    {
      assert s.sink.wm.uid.value < v;
      if v !in t.pending { PassedIsBehind(s, u, a, v); }
    }
  }

  /** A present, unseen message the fetch has just passed or passed before: the sink is stuck at it or before it. */
  lemma PassedIsBehind(s: System, u: nat, a: Answer, v: nat)
    requires s.sink.wm.uid.Some? && FailureAbove(s.sink) && s.reached < u
    requires v in s.box.present && s.sink.wm.uid.value < v
    requires v == u || (v <= s.reached && s.sink.wm.failure.Some? && s.sink.wm.failure.value.uid <= v)
    ensures var t := if u in s.box.present then Offer(s.sink, u, a).0 else s.sink;
            t.wm.uid.Some? && t.wm.uid.value < v ==> v <= u && t.wm.failure.Some? && t.wm.failure.value.uid <= v
  {
    if v == u { StuckIfUnseen(s.sink, u, a); }
  }

  /** A message that is still above the watermark after its offer is where the sink is stuck, or behind it. */
  lemma StuckIfUnseen(s: Sink, u: nat, a: Answer)
    requires FailureAbove(s) && s.wm.uid.value < u
    ensures var t := Offer(s, u, a).0;
            t.wm.uid.Some? && t.wm.uid.value < u ==> t.wm.failure.Some? && t.wm.failure.value.uid <= u
  {
  }

  lemma StepKeepsInv(s: System, e: Event)
    requires Inv(s)
    ensures Inv(Step(s, e))
  {
    match e
    case Poll(now) => PollKeepsInv(s, now);
    case Fetch(reply, now) => FetchKeepsInv(s, reply, now);
    case _ =>
  }

  lemma {:induction false} RunKeepsInv(s: System, events: seq<Event>)
    requires Inv(s)
    ensures Inv(Run(s, events))
    decreases |events|
  {
    if events != [] {
      StepKeepsInv(s, events[0]);
      RunKeepsInv(Step(s, events[0]), events[1..]);
    }
  }

  /** Over every run of arrivals, expunges, failures, reconnects and recreated mailboxes: in the mailbox
      generation the sink is anchored in, outcomes come in strictly increasing UID order, and every
      message present above the anchor and not above the watermark has one. A pending failure lies above
      the watermark, with nothing unseen below it, and giving up takes the full waiting time. */
  lemma EveryMailAccounted(events: seq<Event>)
    ensures var s := Run(Start, events);
            s.sink.wm.uidValidity == Some(s.box.validity) ==>
              && s.sink.wm.uid.Some?
              && (forall i, j :: 0 <= i < j < |s.sink.done| ==> s.sink.done[i].uid < s.sink.done[j].uid)
              && (forall i :: 0 <= i < |s.sink.done| ==> s.sink.anchor < s.sink.done[i].uid <= s.sink.wm.uid.value)
              && (forall u :: u in s.box.present && s.sink.anchor < u <= s.sink.wm.uid.value ==> Finished(s.sink, u))
              && (s.sink.wm.failure.Some? ==>
                    && s.sink.wm.failure.value.uid > s.sink.wm.uid.value
                    && forall u :: u in s.box.present ==> !(s.sink.wm.uid.value < u < s.sink.wm.failure.value.uid))
              && (forall i :: 0 <= i < |s.sink.done| && s.sink.done[i].kind.AbandonedAfter? ==>
                    s.sink.done[i].kind.waited >= ServiceFailureMaxMs)
  {
    RunKeepsInv(Start, events);
  }

  // ------------------------------------------------------------------ where a generation starts

  /** A generation keeps its anchor, and every one but the first is anchored below all mail. */
  predicate AnchorGoesOn(s: Sink, t: Sink) {
    s.wm.uidValidity.Some? ==>
      && t.wm.uidValidity.Some? && t.wm.uidValidity.value >= s.wm.uidValidity.value
      && t.anchor == if t.wm.uidValidity == s.wm.uidValidity then s.anchor else 0
  }

  lemma StepAnchors(s: System, e: Event)
    requires Inv(s)
    ensures AnchorGoesOn(s.sink, Step(s, e).sink)
  {
  }

  lemma {:induction false} RunAnchors(s: System, events: seq<Event>)
    requires Inv(s)
    ensures AnchorGoesOn(s.sink, Run(s, events).sink) && Inv(Run(s, events))
    decreases |events|
  {
    if events != [] {
      hide Inv, Step;
      StepAnchors(s, events[0]);
      StepKeepsInv(s, events[0]);
      RunAnchors(Step(s, events[0]), events[1..]);
    }
  }

  /** A mailbox that is recreated loses no mail: for a sink that had seen an earlier generation, every message
      present at a poll, however long after and whatever came in between, is fetched next or has its outcome. */
  lemma RecreatedMailboxLosesNothing(before: seq<Event>, after: seq<Event>, now: int)
    requires var v := Run(Start, before).sink.wm.uidValidity;
             v.Some? && v.value < Run(Run(Start, before), after).box.validity
    ensures var t := Step(Run(Run(Start, before), after), Poll(now));
            t.sink.anchor == 0 && forall u :: u in t.box.present ==> u in t.pending || Finished(t.sink, u)
  {
    RunKeepsInv(Start, before);
    var r := Run(Start, before);
    RunAnchors(r, after);
    var s := Run(r, after);
    StepAnchors(s, Poll(now));
    StepKeepsInv(s, Poll(now));
    PolledAreAccounted(s, now);
  }

  lemma PolledAreAccounted(s: System, now: int)
    requires Inv(s)
    ensures var t := Step(s, Poll(now));
            && t.sink.wm.uidValidity == Some(t.box.validity)
            && forall u :: u in t.box.present && u > t.sink.anchor ==> u in t.pending || Finished(t.sink, u)
  {
    StepKeepsInv(s, Poll(now));
  }

  lemma NothingLeft(p: seq<nat>)
    ensures p == [] || exists u :: u in p
  {
    assert |p| > 0 ==> p[0] in p;
  }

  /** At its very first poll a sink is anchored at the highest message present, and takes none of them. */
  lemma FirstPollTakesNothing(before: seq<Event>, now: int)
    requires Run(Start, before).sink.wm.uidValidity.None?
    ensures var s := Run(Start, before);
            var t := Step(s, Poll(now));
            && (forall u :: u in s.box.present ==> u <= t.sink.anchor) && (t.sink.anchor == 0 || t.sink.anchor in s.box.present)
            && t.sink.wm.uid == Some(t.sink.anchor) && t.sink.wm.uidValidity == Some(s.box.validity)
            && t.pending == [] && t.sink.handled == [] && t.sink.done == []
  {
    RunKeepsInv(Start, before);
    var s := Run(Start, before);
    var t := Step(s, Poll(now));
    assert forall u :: u in s.box.present <==> u in SearchAll(s.box);
    NothingLeft(t.pending);
  }

  predicate HandedAbove(s: Sink, anchor: nat) { forall u :: u in s.handled ==> u > anchor }

  lemma StepHandsAbove(s: System, e: Event)
    requires Inv(s) && s.sink.wm.uidValidity == Some(s.box.validity) && HandedAbove(s.sink, s.sink.anchor) && !e.Recreate?
    ensures HandedAbove(Step(s, e).sink, s.sink.anchor)
  {
    if e.Fetch? && s.pending != [] && s.pending[0] in s.box.present {
      var u := s.pending[0];
      assert !AlreadySeen(s.sink, u) ==> u > s.sink.anchor;
    }
  }

  lemma {:induction false} RunHandsAbove(s: System, events: seq<Event>)
    requires Inv(s) && s.sink.wm.uidValidity == Some(s.box.validity) && HandedAbove(s.sink, s.sink.anchor)
    requires forall i :: 0 <= i < |events| ==> !events[i].Recreate?
    ensures HandedAbove(Run(s, events).sink, s.sink.anchor)
    decreases |events|
  {
    if events != [] {
      var e, rest := events[0], events[1..];
      assert forall i :: 0 <= i < |rest| ==> rest[i] == events[i + 1];
      StepHandsAbove(s, e);
      StepAnchors(s, e);
      StepKeepsInv(s, e);
      assert Step(s, e).sink.wm.uidValidity == Some(Step(s, e).box.validity);
      hide Inv, Step, HandedAbove;
      RunHandsAbove(Step(s, e), rest);
    }
  }

  /** Mail that was there before the watcher started is never handed over, as long as the mailbox is the same. */
  lemma OldMailIsNeverHanded(before: seq<Event>, now: int, after: seq<Event>)
    requires Run(Start, before).sink.wm.uidValidity.None?
    requires forall i :: 0 <= i < |after| ==> !after[i].Recreate?
    ensures var s := Run(Start, before);
            forall u :: u in s.box.present ==> u !in Run(Step(s, Poll(now)), after).sink.handled
  {
    FirstPollTakesNothing(before, now);
    RunKeepsInv(Start, before);
    var s := Run(Start, before);
    StepKeepsInv(s, Poll(now));
    RunHandsAbove(Step(s, Poll(now)), after);
  }

  /** What the handling of one fetched message comes to, at any point of any run: a message above the watermark
      that nothing blocks is handed over once, and its outcome is what the handler did. */
  lemma OutcomeIsTheReply(events: seq<Event>, reply: Reply, now: int)
    requires var s := Run(Start, events);
             s.pending != [] && s.pending[0] in s.box.present && s.sink.wm.failure.None? && (s.sink.wm.uid.Some? ==> s.pending[0] > s.sink.wm.uid.value)
    ensures var s := Run(Start, events);
            var u := s.pending[0];
            var t := Step(s, Fetch(reply, now)).sink;
            && t.handled == s.sink.handled + [u]
            && (reply == Accepted ==> t.done == s.sink.done + [Terminal(u, Delivered)] && t.wm.uid == Some(u) && t.wm.skips == 0)
            && (reply == Rejected ==> t.done == s.sink.done + [Terminal(u, Skipped)] && t.wm.uid == Some(u) && t.wm.skips == s.sink.wm.skips + 1)
            && (reply == ServiceFailed ==> t.done == s.sink.done && t.wm == s.sink.wm.(failure := Some(Failure(u, now))))
            && (reply != ServiceFailed ==> t.wm.failure.None?)
  {
    RunKeepsInv(Start, events);
  }

  // ------------------------------------------------------------------ a service that is down for a while

  /** The message is neither expunged nor lost with its mailbox. */
  predicate Leaves(e: Event, u: nat) { !e.Recreate? && e != Expunge(u) }

  predicate LeaveAll(events: seq<Event>, u: nat) {
    forall i :: 0 <= i < |events| ==> Leaves(events[i], u)
  }

  /** How the outage of a message that first failed at `first` ends, and when: the batch in which it ended
      was searched at `polled`. */
  datatype Verdict = Open | Ended(kind: Kind, polled: int, now: int)

  /** What one event decides. A poll gives up a message that has waited too long before it can be offered. */
  function Decides(s: System, u: nat, first: int, e: Event): Verdict {
    match e
    case Poll(now) => if now - first >= ServiceFailureMaxMs then Ended(AbandonedAfter(now - first), now, now) else Open
    case Fetch(reply, now) =>
      if s.pending == [] || s.pending[0] != u then Open
      else if reply == Accepted then Ended(Delivered, s.polled, now)
      else if reply == Rejected then Ended(Skipped, s.polled, now)
      else if now - first >= ServiceFailureMaxMs then Ended(AbandonedAfter(now - first), s.polled, now)
      else Open
    case _ => Open
  }

  /** The first event that decides. */
  function VerdictOf(s: System, u: nat, first: int, events: seq<Event>): Verdict
    decreases |events|
  {
    if events == [] then Open
    else if Decides(s, u, first, events[0]).Ended? then Decides(s, u, first, events[0])
    else VerdictOf(Step(s, events[0]), u, first, events[1..])
  }

  /** The sink waits for this message, and a batch that offers it was searched in time. */
  ghost predicate Waiting(s: System, u: nat, first: int) {
    && Inv(s) && s.sink.wm.uidValidity == Some(s.box.validity) && s.sink.wm.failure == Some(Failure(u, first))
    && u in s.box.present && (u in s.pending ==> s.polled - first < ServiceFailureMaxMs)
  }

  lemma UndecidedWaits(s: System, u: nat, first: int, e: Event)
    requires Waiting(s, u, first) && Leaves(e, u) && Decides(s, u, first, e).Open?
    ensures Waiting(Step(s, e), u, first) && Step(s, e).sink.wm == s.sink.wm && Step(s, e).sink.done == s.sink.done
  {
    StepKeepsInv(s, e);
    match e {
    case Poll(now) => assert u in SearchAll(s.box);
    case Fetch(reply, now) =>
      if s.pending != [] {
        TailAscends(s.pending);
        assert s.pending[0] != u && s.pending[0] in s.box.present ==>
            AlreadySeen(s.sink, s.pending[0]) || Blocked(s.sink, s.pending[0]);
      }
    case _ =>
    }
  }

  lemma DecidedEnds(s: System, u: nat, first: int, e: Event)
    requires Waiting(s, u, first) && Leaves(e, u) && Decides(s, u, first, e).Ended?
    ensures var v, t := Decides(s, u, first, e), Step(s, e);
            && t.sink.done == s.sink.done + [Terminal(u, v.kind)] && t.sink.wm.uid == Some(u) && t.sink.wm.failure.None?
            && t.sink.wm.uidValidity == Some(t.box.validity)
            && (v.kind.AbandonedAfter? ==> v.kind.waited == v.now - first >= ServiceFailureMaxMs)
            && (!v.kind.AbandonedAfter? ==> v.polled - first < ServiceFailureMaxMs)
  {
    if e.Poll? { assert u in SearchAll(s.box); }
  }

  lemma StepKeepsDone(s: System, e: Event, u: nat)
    requires Inv(s) && s.sink.wm.uidValidity == Some(s.box.validity) && Leaves(e, u)
    ensures var t := Step(s, e);
            && s.sink.done <= t.sink.done && t.sink.wm.uidValidity == Some(t.box.validity)
            && s.sink.wm.uid.Some? && t.sink.wm.uid.Some? && t.sink.wm.uid.value >= s.sink.wm.uid.value
  {
  }

  lemma {:induction false} DoneOnlyGrows(s: System, events: seq<Event>, u: nat)
    requires Inv(s) && s.sink.wm.uidValidity == Some(s.box.validity) && LeaveAll(events, u)
    ensures var t := Run(s, events);
            && s.sink.done <= t.sink.done && t.sink.wm.uidValidity == Some(t.box.validity)
            && s.sink.wm.uid.Some? && t.sink.wm.uid.Some? && t.sink.wm.uid.value >= s.sink.wm.uid.value && Inv(t)
    decreases |events|
  {
    if events != [] {
      var e, rest := events[0], events[1..];
      assert forall i :: 0 <= i < |rest| ==> rest[i] == events[i + 1];
      assert Leaves(e, u);
      hide Inv, Step, LeaveAll;
      StepKeepsInv(s, e);
      StepKeepsDone(s, e, u);
      DoneOnlyGrows(Step(s, e), rest, u);
    }
  }

  lemma {:induction false} WaitingEnds(s: System, u: nat, first: int, events: seq<Event>)
    requires Waiting(s, u, first) && LeaveAll(events, u)
    ensures var v, t := VerdictOf(s, u, first, events), Run(s, events);
            && (v.Open? ==> t.sink.wm == s.sink.wm && t.sink.done == s.sink.done)
            && (v.Ended? ==>
                  && s.sink.done + [Terminal(u, v.kind)] <= t.sink.done && t.sink.wm.uid.Some? && t.sink.wm.uid.value >= u
                  && (if v.kind.AbandonedAfter? then v.kind.waited == v.now - first >= ServiceFailureMaxMs
                      else v.polled - first < ServiceFailureMaxMs))
            && Inv(t) && t.sink.wm.uidValidity == Some(t.box.validity)
            && (v.Open? ==> forall i :: 0 <= i < |events| && events[i].Poll? ==> events[i].now - first < ServiceFailureMaxMs)
    decreases |events|
  {
    if events != [] {
      var e, rest := events[0], events[1..];
      assert forall i :: 0 <= i < |rest| ==> rest[i] == events[i + 1];
      assert Leaves(e, u);
      if Decides(s, u, first, e).Ended? {
        DecidedEnds(s, u, first, e);
        StepKeepsInv(s, e);
        DoneOnlyGrows(Step(s, e), rest, u);
      } else {
        UndecidedWaits(s, u, first, e);
        hide Inv, Step, Waiting;
        WaitingEnds(Step(s, e), u, first, rest);
      }
    }
  }

  /** The first failure of a message: nothing is pending for the sink, and the service is down. */
  predicate FailsFirst(s: System) {
    && s.pending != [] && s.pending[0] in s.box.present && s.sink.wm.failure.None? && !AlreadySeen(s.sink, s.pending[0])
  }

  /** From the first failure of a message, through any run in which it stays in the mailbox: as long as nothing
      decides it the sink does not move; then it has exactly one outcome, before any later message. It is
      delivered or skipped only from a batch searched within ten minutes of the first failure, and given up
      only after the full ten minutes, which it is at the first poll after them at the latest. */
  lemma OutageEndsInOneOutcome(before: seq<Event>, first: int, events: seq<Event>)
    requires FailsFirst(Run(Start, before))
    requires LeaveAll(events, Run(Start, before).pending[0])
    ensures var r := Run(Start, before);
            var u := r.pending[0];
            var s := Step(r, Fetch(ServiceFailed, first));
            var v, t := VerdictOf(s, u, first, events), Run(s, events);
            && s.sink.wm == r.sink.wm.(failure := Some(Failure(u, first))) && s.sink.done == r.sink.done
            && (v.Open? ==>
                  && t.sink.wm == s.sink.wm && t.sink.done == s.sink.done
                  && forall i :: 0 <= i < |events| && events[i].Poll? ==> events[i].now - first < ServiceFailureMaxMs)
            && (v.Ended? ==>
                  && r.sink.done + [Terminal(u, v.kind)] <= t.sink.done
                  && (forall i :: 0 <= i < |t.sink.done| && t.sink.done[i].uid == u ==> i == |r.sink.done|)
                  && (if v.kind.AbandonedAfter? then v.kind.waited == v.now - first >= ServiceFailureMaxMs
                      else v.polled - first < ServiceFailureMaxMs))
  {
    RunKeepsInv(Start, before);
    var r := Run(Start, before);
    var s := Step(r, Fetch(ServiceFailed, first));
    StepKeepsInv(r, Fetch(ServiceFailed, first));
    TailAscends(r.pending);
    assert Waiting(s, r.pending[0], first);
    hide Inv, Step, Waiting;
    WaitingEnds(s, r.pending[0], first, events);
    var t := Run(s, events);
    if VerdictOf(s, r.pending[0], first, events).Ended? { OnlyOnce(t, |r.sink.done|); }
  }

  lemma OnlyOnce(t: System, k: nat)
    requires Inv(t) && t.sink.wm.uidValidity == Some(t.box.validity) && k < |t.sink.done|
    ensures forall i :: 0 <= i < |t.sink.done| && t.sink.done[i].uid == t.sink.done[k].uid ==> i == k
  {
  }
}
