/**
 Delivery of queued events (src/control_plane/outbox.py): claim, act, retry with backoff, reclaim
 what a dead worker left behind. The events are rows that the operations update in place; every
 method of `Queue` is proved against a function on the rows.
 */
module Outbox {
  import opened Options

  datatype Status = Pending | Claimed | Done | Dead

  /**
   An event row; its identifier is its position. `claims` and `reclaims` count how often it was
   claimed and taken back, which the table does not store.
   */
  datatype Event = Event(topic: string, aggregate: nat, status: Status, attempts: nat, nextAt: int,
                         claimedBy: Option<nat>, claimedAt: int, claims: nat, reclaims: nat)

  const MAX_ATTEMPTS: Positive
  const BASE_BACKOFF: nat
  const MAX_BACKOFF: nat
  const CLAIM_TIMEOUT: Positive

  /** The topics that have a handler. */
  const HANDLERS: set<string> := {"billing.hold_required", "usage.reset_detected", "approval.granted", "support.ticket"}

  // ---- single operations on the rows ----

  predicate SameKey(e: Event, f: Event) {
    e.topic == f.topic && e.aggregate == f.aggregate
  }

  predicate Waiting(es: seq<Event>, topic: string, aggregate: nat) {
    exists i :: 0 <= i < |es| && es[i].status == Pending && es[i].topic == topic && es[i].aggregate == aggregate
  }

  /** The unique index: at most one pending event per topic and aggregate. */
  predicate IndexHolds(es: seq<Event>) {
    forall i, j :: 0 <= i < j < |es| ==> !(es[i].status == Pending && es[j].status == Pending && SameKey(es[i], es[j]))
  }

  /** A write that would break the unique index fails and changes nothing. */
  function Store(es: seq<Event>): Option<seq<Event>> {
    if IndexHolds(es) then Some(es) else None
  }

  function Enqueued(es: seq<Event>, topic: string, aggregate: nat, now: int): seq<Event> {
    if Waiting(es, topic, aggregate) then es
    else es + [Event(topic, aggregate, Pending, 0, now, None, 0, 0, 0)]
  }

  predicate Due(e: Event, now: int) {
    e.status == Pending && e.nextAt <= now
  }

  /** The due event with the smallest (next_attempt_at, id), of those that no other transaction has locked. */
  function Earliest(es: seq<Event>, now: int, locked: set<nat>): (r: Option<nat>)
    ensures r.Some? ==> r.value < |es| && Due(es[r.value], now) && r.value !in locked
  {
    if es == [] then None
    else
      var n := |es| - 1;
      var rest := Earliest(es[..n], now, locked);
      if Due(es[n], now) && n !in locked && (rest == None || es[n].nextAt < es[rest.value].nextAt) then Some(n) else rest
  }

  function Claim1(es: seq<Event>, i: nat, worker: nat, now: int): seq<Event>
    requires i < |es|
  {
    es[i := es[i].(status := Claimed, claimedBy := Some(worker), claimedAt := now, claims := es[i].claims + 1)]
  }

  /** claim: the first `limit` due events that are not locked; also their ids in claiming order. */
  function ClaimBatch(es: seq<Event>, worker: nat, now: int, limit: nat, locked: set<nat>): (seq<Event>, seq<nat>)
    decreases limit
  {
    if limit == 0 || Earliest(es, now, locked) == None then (es, [])
    else
      var i := Earliest(es, now, locked).value;
      var (after, ids) := ClaimBatch(Claim1(es, i, worker, now), worker, now, limit - 1, locked);
      (after, [i] + ids)
  }

  /** complete; it does not look at the claim. */
  function Completed(es: seq<Event>, i: nat): seq<Event>
    requires i < |es|
  {
    es[i := es[i].(status := Done)]
  }

  function Pow2(k: nat): (p: nat)
    ensures p >= 1
  {
    if k == 0 then 1 else 2 * Pow2(k - 1)
  }

  /** The wait after the given number of failed attempts. */
  function Backoff(attempts: nat): nat
    requires attempts >= 1
  {
    var d := BASE_BACKOFF * Pow2(attempts - 1);
    if d < MAX_BACKOFF then d else MAX_BACKOFF
  }

  function Retried(e: Event, now: int): Event {
    var n := e.attempts + 1;
    if n >= MAX_ATTEMPTS then e.(attempts := n, claimedBy := None, status := Dead)
    else e.(attempts := n, claimedBy := None, status := Pending, nextAt := now + Backoff(n))
  }

  /** retry; it does not look at the claim, and fails on the unique index when a newer twin is pending. */
  function RetriedIn(es: seq<Event>, i: nat, now: int): Option<seq<Event>>
    requires i < |es|
  {
    Store(es[i := Retried(es[i], now)])
  }

  predicate Stale(e: Event, now: int) {
    e.status == Claimed && e.claimedAt <= now - CLAIM_TIMEOUT
  }

  function Freed(e: Event): Event {
    e.(status := Pending, claimedBy := None, reclaims := e.reclaims + 1)
  }

  /** The rows with every stale claim taken back, whether or not the index allows it. */
  function FreedAll(es: seq<Event>, now: int): seq<Event> {
    seq(|es|, i requires 0 <= i < |es| => if Stale(es[i], now) then Freed(es[i]) else es[i])
  }

  function StaleCount(es: seq<Event>, now: int): nat {
    if es == [] then 0 else StaleCount(es[..|es| - 1], now) + (if Stale(es[|es| - 1], now) then 1 else 0)
  }

  /** reclaim_stale: all stale claims in one write. */
  function Reclaim(es: seq<Event>, now: int): Option<seq<Event>> {
    Store(FreedAll(es, now))
  }

  // ---- run_once ----

  datatype Stats = Stats(stale: nat, claimed: nat, done: nat, retry: nat, dead: nat)

  /** The rows and statistics after a run; `crashed` when an index violation ended the process. */
  datatype RunResult = RunResult(events: seq<Event>, stats: Stats, crashed: bool)

  /** Acts on the claimed events one after another; of those whose topic has a handler, `works` says whose succeeds. */
  function Deliver(es: seq<Event>, ids: seq<nat>, handlers: set<string>, works: nat -> bool, now: int, stats: Stats): RunResult
    requires forall k :: 0 <= k < |ids| ==> ids[k] < |es|
    decreases |ids|
  {
    if ids == [] then RunResult(es, stats, false)
    else
      var i, counted := ids[0], stats.(claimed := stats.claimed + 1);
      if es[i].topic in handlers && works(i) then
        Deliver(Completed(es, i), ids[1..], handlers, works, now, counted.(done := counted.done + 1))
      else
        match RetriedIn(es, i, now)
        case None => RunResult(es, counted, true)
        case Some(next) =>
          Deliver(next, ids[1..], handlers, works, now,
                  if next[i].status == Pending then counted.(retry := counted.retry + 1)
                  else counted.(dead := counted.dead + 1))
  }

  lemma {:induction false} ClaimedIds(es: seq<Event>, worker: nat, now: int, limit: nat, locked: set<nat>)
    ensures var (after, ids) := ClaimBatch(es, worker, now, limit, locked);
            |after| == |es| && |ids| <= limit && forall k :: 0 <= k < |ids| ==> ids[k] < |es|
    decreases limit
  {
    if limit > 0 && Earliest(es, now, locked).Some? {
      ClaimedIds(Claim1(es, Earliest(es, now, locked).value, worker, now), worker, now, limit - 1, locked);
    }
  }

  function RunOf(es: seq<Event>, worker: nat, now: int, limit: nat, locked: set<nat>, handlers: set<string>, works: nat -> bool)
    : RunResult {
    match Reclaim(es, now)
    case None => RunResult(es, Stats(0, 0, 0, 0, 0), true)
    case Some(freed) =>
      var (claimed, ids) := ClaimBatch(freed, worker, now, limit, locked);
      ClaimedIds(freed, worker, now, limit, locked);
      Deliver(claimed, ids, handlers, works, now, Stats(StaleCount(es, now), 0, 0, 0, 0))
  }

  /** The table, updated in place as the module's sessions do. */
  class Queue {
    var events: seq<Event>

    constructor ()
      ensures events == []
    {
      events := [];
    }

    method Enqueue(topic: string, aggregate: nat, now: int) returns (queued: bool)
      modifies this
      ensures events == Enqueued(old(events), topic, aggregate, now)
      ensures queued == !Waiting(old(events), topic, aggregate)
    {
      var i := 0;
      while i < |events|
        invariant 0 <= i <= |events| && events == old(events)
        invariant forall j :: 0 <= j < i ==>
                    !(events[j].status == Pending && events[j].topic == topic && events[j].aggregate == aggregate)
      {
        if events[i].status == Pending && events[i].topic == topic && events[i].aggregate == aggregate {
          return false;
        }
        i := i + 1;
      }
      events := events + [Event(topic, aggregate, Pending, 0, now, None, 0, 0, 0)];
      queued := true;
    }

    /** The row `claim` would lock next. */
    method FindEarliest(now: int, locked: set<nat>) returns (r: Option<nat>)
      ensures r == Earliest(events, now, locked)
    {
      r := None;
      var i := 0;
      while i < |events|
        invariant 0 <= i <= |events| && r == Earliest(events[..i], now, locked)
      {
        assert events[..i + 1][..i] == events[..i];
        if Due(events[i], now) && i !in locked && (r == None || events[i].nextAt < events[r.value].nextAt) {
          r := Some(i);
        }
        i := i + 1;
      }
      assert events[..i] == events;
    }

    method Claim(worker: nat, now: int, limit: nat, locked: set<nat>) returns (ids: seq<nat>)
      modifies this
      ensures (events, ids) == ClaimBatch(old(events), worker, now, limit, locked)
    {
      ids := [];
      var left := limit;
      ghost var whole := ClaimBatch(events, worker, now, limit, locked);
      while left > 0
        invariant 0 <= left <= limit
        invariant whole.0 == ClaimBatch(events, worker, now, left, locked).0
        invariant whole.1 == ids + ClaimBatch(events, worker, now, left, locked).1
      {
        var next := FindEarliest(now, locked);
        if next == None {
          assert ids + [] == ids;
          return;
        }
        var i := next.value;
        ghost var rest := ClaimBatch(Claim1(events, i, worker, now), worker, now, left - 1, locked).1;
        assert ids + ([i] + rest) == (ids + [i]) + rest;
        events := Claim1(events, i, worker, now);
        ids := ids + [i];
        left := left - 1;
      }
      assert ids + [] == ids;
    }

    method Complete(i: nat)
      requires i < |events|
      modifies this
      ensures events == Completed(old(events), i)
    {
      events := events[i := events[i].(status := Done)];
    }

    /** The state the event fell back to, or none when the write violated the unique index. */
    method Retry(i: nat, now: int) returns (fell: Option<Status>)
      requires i < |events|
      modifies this
      ensures match RetriedIn(old(events), i, now)
              case None => fell == None && events == old(events)
              case Some(next) => fell == Some(next[i].status) && events == next
    {
      var e := events[i];
      e := e.(attempts := e.attempts + 1, claimedBy := None);
      if e.attempts >= MAX_ATTEMPTS {
        e := e.(status := Dead);
      } else {
        e := e.(status := Pending, nextAt := now + Backoff(e.attempts));
      }
      assert e == Retried(events[i], now);
      var next := events[i := e];
      if IndexHolds(next) {
        events := next;
        fell := Some(e.status);
      } else {
        fell := None;
      }
    }

    method ReclaimStale(now: int) returns (count: Option<nat>)
      modifies this
      ensures match Reclaim(old(events), now)
              case None => count == None && events == old(events)
              case Some(next) => count == Some(StaleCount(old(events), now)) && events == next
    {
      var i, n, next := 0, 0, events;
      while i < |events|
        invariant 0 <= i <= |events| == |next| && events == old(events)
        invariant n == StaleCount(events[..i], now)
        invariant forall j :: 0 <= j < i ==> next[j] == FreedAll(events, now)[j]
        invariant forall j :: i <= j < |events| ==> next[j] == events[j]
      {
        assert events[..i + 1][..i] == events[..i];
        if Stale(events[i], now) {
          next := next[i := Freed(events[i])];
          n := n + 1;
        }
        i := i + 1;
      }
      assert events[..i] == events && next == FreedAll(events, now);
      if IndexHolds(next) {
        events := next;
        count := Some(n);
      } else {
        count := None;
      }
    }

    method RunOnce(worker: nat, now: int, limit: nat, locked: set<nat>, handlers: set<string>, works: nat -> bool)
      returns (stats: Stats, crashed: bool)
      modifies this
      ensures RunResult(events, stats, crashed) == RunOf(old(events), worker, now, limit, locked, handlers, works)
    {
      hide ClaimBatch, Earliest, IndexHolds, FreedAll, StaleCount, Retried;
      stats := Stats(0, 0, 0, 0, 0);
      var stale := ReclaimStale(now);
      if stale == None {
        return stats, true;
      }
      stats := stats.(stale := stale.value);
      ghost var before := events;
      ClaimedIds(events, worker, now, limit, locked);
      var ids := Claim(worker, now, limit, locked);
      ghost var whole := Deliver(events, ids, handlers, works, now, stats);
      crashed := false;
      var k := 0;
      while k < |ids|
        invariant 0 <= k <= |ids| && |events| == |before|
        invariant Deliver(events, ids[k..], handlers, works, now, stats) == whole
      {
        var i := ids[k];
        assert ids[k..][0] == i && ids[k..][1..] == ids[k + 1..];
        stats := stats.(claimed := stats.claimed + 1);
        if events[i].topic in handlers && works(i) {
          Complete(i);
          stats := stats.(done := stats.done + 1);
        } else {
          var fell := Retry(i, now);
          if fell == None {
            return stats, true;
          }
          stats := if fell.value == Pending then stats.(retry := stats.retry + 1) else stats.(dead := stats.dead + 1);
        }
        k := k + 1;
      }
    }
  }
}
