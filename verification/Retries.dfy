/**
 What the workers do to one event (src/control_plane/outbox.py:43-80 and 178-209): how long a failed one
 rests, what a whole run makes of every row, and when a run crashes.
 */
module Retries {
  import opened Options
  import opened Outbox
  import opened Delivery

  // ---- the wait ----

  /** `seconds`, doubled k times. */
  function DoubledTimes(seconds: nat, k: nat): nat {
    if k == 0 then seconds else 2 * DoubledTimes(seconds, k - 1)
  }

  /** How long an event rests after its n-th failure: the base doubled with every failure after the first, up to the cap. */
  function Rest(n: nat): nat
    requires n >= 1
  {
    if DoubledTimes(BASE_BACKOFF, n - 1) <= MAX_BACKOFF then DoubledTimes(BASE_BACKOFF, n - 1) else MAX_BACKOFF
  }

  lemma {:induction false} DoublingIsPower(seconds: nat, k: nat)
    ensures seconds * Pow2(k) == DoubledTimes(seconds, k)
  {
    if k > 0 {
      DoublingIsPower(seconds, k - 1);
      assert seconds * (2 * Pow2(k - 1)) == 2 * (seconds * Pow2(k - 1));
    }
  }

  lemma BackoffIsRest(n: nat)
    requires n >= 1
    ensures Backoff(n) == Rest(n)
  {
    DoublingIsPower(BASE_BACKOFF, n - 1);
  }

  /** What a failure makes of an event: dead after the last attempt, else pending and resting; and nobody's in either case. */
  ghost predicate Failed(e: Event, f: Event, now: int) {
    && f.topic == e.topic && f.aggregate == e.aggregate && f.claims == e.claims && f.reclaims == e.reclaims
    && f.attempts == e.attempts + 1 && f.claimedBy == None
    && if f.attempts >= MAX_ATTEMPTS then f.status == Dead
       else f.status == Pending && forall t :: Due(f, t) <==> t >= now + Rest(f.attempts)
  }

  lemma RetriedFailed(e: Event, now: int)
    ensures Failed(e, Retried(e, now), now)
  {
    BackoffIsRest(e.attempts + 1);
  }

  /** A failure writes this one row; the row waits for its whole rest, and not longer. */
  lemma FailureRests(es: seq<Event>, i: nat, now: int)
    requires i < |es| && RetriedIn(es, i, now).Some?
    ensures var next := RetriedIn(es, i, now).value;
            |next| == |es| && Failed(es[i], next[i], now) && forall j :: 0 <= j < |es| && j != i ==> next[j] == es[j]
  {
    RetriedFailed(es[i], now);
  }

  lemma InvOfRun(trace: seq<State>, acts: seq<Action>, k: nat)
    requires Run(trace, acts) && k < |trace|
    ensures Inv(trace[k]) && |trace| == |acts| + 1
    ensures k < |acts| ==> Can(trace[k], acts[k]) && trace[k + 1] == Apply(trace[k], acts[k])
  {
    RunDelivers(trace, acts, k);
  }

  /** Nothing but a claim, when it is due, touches a pending event that no live worker holds. */
  lemma PendingRests(st: State, a: Action, i: nat)
    requires Inv(st) && Can(st, a) && i < |st.events| && st.events[i].status == Pending
    requires a.Take? ==> !Due(st.events[i], st.now)
    ensures i < |Apply(st, a).events| && Apply(st, a).events[i] == st.events[i] && st.now <= Apply(st, a).now
  {
    hide IndexHolds, Retried;
    match a {
      case Take(w, limit, locked) => ClaimTakesDue(st.events, w, st.now, limit, locked);
      case Finish(w, j) => assert Owned(st.events, j, w, st.workers[w].holds[j]);
      case Fail(w, j) => assert Owned(st.events, j, w, st.workers[w].holds[j]);
      case _ =>
    }
  }

  /**
   In every run under the lease, an event that has failed and has attempts left rests: until its wait is over
   it stays exactly as it is, whatever workers do; in particular nobody claims it.
   */
  lemma {:induction false} NobodyTakesEarly(trace: seq<State>, acts: seq<Action>, k: nat, m: nat)
    requires Run(trace, acts) && k < m < |trace| && acts[k].Fail? && acts[k].event < |trace[k].events|
    requires RetriedIn(trace[k].events, acts[k].event, trace[k].now).Some?
    requires trace[k].events[acts[k].event].attempts + 1 < MAX_ATTEMPTS
    requires trace[m].now < trace[k].now + Rest(trace[k].events[acts[k].event].attempts + 1)
    ensures var i := acts[k].event;
            && i < |trace[k + 1].events| && i < |trace[m].events| && trace[m].events[i] == trace[k + 1].events[i]
            && Failed(trace[k].events[i], trace[m].events[i], trace[k].now) && !Due(trace[m].events[i], trace[m].now)
    decreases m
  {
    hide Apply, Inv, Run, Leased, Retried;
    InvOfRun(trace, acts, k);
    var i := acts[k].event;
    if m == k + 1 {
      FailureRests(trace[k].events, i, trace[k].now);
      AfterFailure(trace[k], acts[k]);
    } else {
      InvOfRun(trace, acts, m - 1);
      TimeGoesOn(trace[m - 1], acts[m - 1]);
      NobodyTakesEarly(trace, acts, k, m - 1);
      PendingRests(trace[m - 1], acts[m - 1], i);
    }
  }

  lemma AfterFailure(st: State, a: Action)
    requires Can(st, a) && a.Fail? && RetriedIn(st.events, a.event, st.now).Some?
    ensures Apply(st, a).events == RetriedIn(st.events, a.event, st.now).value && Apply(st, a).now == st.now
  {}

  lemma TimeGoesOn(st: State, a: Action)
    requires Can(st, a)
    ensures st.now <= Apply(st, a).now
  {}

  // ---- queueing ----

  /** An event is queued fresh and due at once, unless one with its key is pending; nothing else is touched. */
  lemma QueuedIsDue(es: seq<Event>, topic: string, aggregate: nat, now: int)
    ensures var next := Enqueued(es, topic, aggregate, now);
            if exists j :: 0 <= j < |es| && es[j].status == Pending && es[j].topic == topic && es[j].aggregate == aggregate
            then next == es
            else
              && |next| == |es| + 1 && next[..|es|] == es
              && var e := next[|es|];
                 && e.topic == topic && e.aggregate == aggregate && e.attempts == e.claims == e.reclaims == 0
                 && e.claimedBy == None && forall t :: Due(e, t) <==> t >= now
  {}

  // ---- taking back ----

  /** Whether the claim has lasted for the timeout or longer. */
  predicate Outlasted(e: Event, now: int) {
    e.status == Claimed && now - e.claimedAt >= CLAIM_TIMEOUT
  }

  lemma {:induction false} StaleCounted(es: seq<Event>, now: int)
    ensures StaleCount(es, now) == |set i | 0 <= i < |es| && Outlasted(es[i], now)|
  {
    var all := set i | 0 <= i < |es| && Outlasted(es[i], now);
    if es == [] {
      assert all == {};
    } else {
      var n := |es| - 1;
      StaleCounted(es[..n], now);
      hide Outlasted;
      var early := set i | 0 <= i < n && Outlasted(es[..n][i], now);
      forall i: int ensures i in all <==> i in early || (i == n && Outlasted(es[n], now)) {
        if 0 <= i < n { assert es[..n][i] == es[i]; }
      }
      assert n !in early && all == if Outlasted(es[n], now) then early + {n} else early;
      assert Stale(es[n], now) <==> Outlasted(es[n], now) by { StaleIs(es[n], now); }
    }
  }

  lemma StaleIs(e: Event, now: int)
    ensures Stale(e, now) <==> Outlasted(e, now)
  {}

  /** What taking back makes of a row: an outlasted claim becomes pending and nobody's, and is due as it was. */
  predicate TakenBack(e: Event, f: Event, now: int) {
    if !Outlasted(e, now) then f == e
    else
      && f.topic == e.topic && f.aggregate == e.aggregate && f.attempts == e.attempts && f.claims == e.claims
      && f.nextAt == e.nextAt && f.status == Pending && f.claimedBy == None && f.reclaims == e.reclaims + 1
  }

  // ---- one whole run ----

  predicate Succeeds(e: Event, i: nat, handlers: set<string>, works: nat -> bool) {
    e.topic in handlers && works(i)
  }

  /** Whether this failure is the last one. */
  predicate LastTry(e: Event) {
    e.attempts + 1 >= MAX_ATTEMPTS
  }

  /** How many of the events a run claims it does, sends back, and gives up. */
  function Dones(es: seq<Event>, ids: seq<nat>, handlers: set<string>, works: nat -> bool): nat
    requires forall k :: 0 <= k < |ids| ==> ids[k] < |es|
  {
    if ids == [] then 0 else (if Succeeds(es[ids[0]], ids[0], handlers, works) then 1 else 0) + Dones(es, ids[1..], handlers, works)
  }

  function Deads(es: seq<Event>, ids: seq<nat>, handlers: set<string>, works: nat -> bool): nat
    requires forall k :: 0 <= k < |ids| ==> ids[k] < |es|
  {
    if ids == [] then 0
    else
      (if !Succeeds(es[ids[0]], ids[0], handlers, works) && LastTry(es[ids[0]]) then 1 else 0)
      + Deads(es, ids[1..], handlers, works)
  }

  /** The claimed events of a run: each once, claimed, with keys of their own and no twin waiting. */
  ghost predicate InHand(es: seq<Event>, ids: seq<nat>) {
    && IndexHolds(es)
    && (forall k :: 0 <= k < |ids| ==> ids[k] < |es| && es[ids[k]].status == Claimed && !WaitingTwin(es, ids[k]))
    && (forall k, l :: 0 <= k < l < |ids| ==> ids[k] != ids[l] && !SameKey(es[ids[k]], es[ids[l]]))
  }

  lemma InHandRest(es: seq<Event>, ids: seq<nat>, e: Event)
    requires InHand(es, ids) && ids != [] && SameKey(es[ids[0]], e)
    ensures var next := es[ids[0] := e];
            IndexHolds(next) ==> InHand(next, ids[1..])
  {
    hide IndexHolds;
    var next, rest := es[ids[0] := e], ids[1..];
    assert forall k :: 0 <= k < |rest| ==> rest[k] == ids[k + 1];
    forall k | 0 <= k < |rest| ensures !WaitingTwin(next, rest[k]) {
      assert !WaitingTwin(es, ids[k + 1]) && !SameKey(es[ids[0]], es[ids[k + 1]]);
    }
  }

  lemma SameCounts(es: seq<Event>, next: seq<Event>, ids: seq<nat>, handlers: set<string>, works: nat -> bool)
    requires |next| == |es| && forall k :: 0 <= k < |ids| ==> ids[k] < |es| && next[ids[k]] == es[ids[k]]
    ensures Dones(next, ids, handlers, works) == Dones(es, ids, handlers, works)
    ensures Deads(next, ids, handlers, works) == Deads(es, ids, handlers, works)
  {
    if ids != [] { SameCounts(es, next, ids[1..], handlers, works); }
  }

  /** What a run makes of a claimed row. */
  ghost predicate Settled(e: Event, f: Event, i: nat, handlers: set<string>, works: nat -> bool, now: int) {
    if Succeeds(e, i, handlers, works) then f == e.(status := Done) else Failed(e, f, now)
  }

  lemma FailedEnds(e: Event, f: Event, now: int)
    requires Failed(e, f, now)
    ensures SameKey(e, f) && (f.status == Pending <==> !LastTry(e))
  {}

  lemma CompletedFits(es: seq<Event>, i: nat)
    requires i < |es| && IndexHolds(es)
    ensures IndexHolds(Completed(es, i))
  {}

  /** The statistics after one more event. */
  function Counted(stats: Stats, e: Event, i: nat, handlers: set<string>, works: nat -> bool): Stats {
    var more := stats.(claimed := stats.claimed + 1);
    if Succeeds(e, i, handlers, works) then more.(done := more.done + 1)
    else if LastTry(e) then more.(dead := more.dead + 1)
    else more.(retry := more.retry + 1)
  }

  /** Acting on the first event in hand settles it and leaves the others in hand. */
  lemma DeliverStep(es: seq<Event>, ids: seq<nat>, handlers: set<string>, works: nat -> bool, now: int, stats: Stats)
    returns (next: seq<Event>)
    requires InHand(es, ids) && ids != []
    ensures |next| == |es| && InHand(next, ids[1..]) && Settled(es[ids[0]], next[ids[0]], ids[0], handlers, works, now)
    ensures forall j :: 0 <= j < |es| && j != ids[0] ==> next[j] == es[j]
    ensures Deliver(es, ids, handlers, works, now, stats)
         == Deliver(next, ids[1..], handlers, works, now, Counted(stats, es[ids[0]], ids[0], handlers, works))
  {
    hide IndexHolds, Retried, Failed, WaitingTwin;
    var i := ids[0];
    if Succeeds(es[i], i, handlers, works) {
      next := Completed(es, i);
      CompletedFits(es, i);
      InHandRest(es, ids, es[i].(status := Done));
    } else {
      RetryFitsIff(es, i, now);
      RetriedFailed(es[i], now);
      FailureRests(es, i, now);
      next := RetriedIn(es, i, now).value;
      FailedEnds(es[i], next[i], now);
      InHandRest(es, ids, next[i]);
    }
  }

  /** Acting on events in hand never crashes, settles each of them, and touches nothing else. */
  lemma {:induction false} DeliverSettles(es: seq<Event>, ids: seq<nat>, handlers: set<string>, works: nat -> bool, now: int,
                                          stats: Stats)
    requires InHand(es, ids)
    ensures var r := Deliver(es, ids, handlers, works, now, stats);
            && !r.crashed && |r.events| == |es|
            && (forall j :: 0 <= j < |es| && j !in ids ==> r.events[j] == es[j])
            && (forall j :: 0 <= j < |es| && j in ids ==> Settled(es[j], r.events[j], j, handlers, works, now))
    decreases |ids|
  {
    if ids != [] {
      var next := DeliverStep(es, ids, handlers, works, now, stats);
      FirstInHand(es, ids);
      hide InHand, Settled, Deliver, Counted;
      DeliverSettles(next, ids[1..], handlers, works, now, Counted(stats, es[ids[0]], ids[0], handlers, works));
    }
  }

  lemma FirstInHand(es: seq<Event>, ids: seq<nat>)
    requires InHand(es, ids) && ids != []
    ensures ids[0] < |es| && ids[0] !in ids[1..] && forall k :: 0 <= k < |ids| - 1 ==> ids[1..][k] < |es| && ids[1..][k] != ids[0]
  {
    hide IndexHolds;
    assert forall k :: 0 <= k < |ids[1..]| ==> ids[1..][k] == ids[k + 1];
  }

  /** And its statistics count them. */
  lemma {:induction false} DeliverCounts(es: seq<Event>, ids: seq<nat>, handlers: set<string>, works: nat -> bool, now: int,
                                         stats: Stats)
    requires InHand(es, ids)
    ensures var end := Deliver(es, ids, handlers, works, now, stats).stats;
            && end.stale == stats.stale && end.claimed == stats.claimed + |ids|
            && end.done == stats.done + Dones(es, ids, handlers, works)
            && end.dead == stats.dead + Deads(es, ids, handlers, works)
            && end.retry == stats.retry + |ids| - Dones(es, ids, handlers, works) - Deads(es, ids, handlers, works)
    decreases |ids|
  {
    if ids != [] {
      var next := DeliverStep(es, ids, handlers, works, now, stats);
      FirstInHand(es, ids);
      hide InHand, Settled, Deliver, Succeeds, LastTry;
      SameCounts(es, next, ids[1..], handlers, works);
      DeliverCounts(next, ids[1..], handlers, works, now, Counted(stats, es[ids[0]], ids[0], handlers, works));
    }
  }

  /** What a claim takes is in hand. */
  lemma ClaimedInHand(es: seq<Event>, worker: nat, now: int, limit: nat, locked: set<nat>)
    requires IndexHolds(es)
    ensures var (after, ids) := ClaimBatch(es, worker, now, limit, locked);
            InHand(after, ids)
  {
    hide ClaimBatch;
    ClaimTakesDue(es, worker, now, limit, locked);
    var (after, ids) := ClaimBatch(es, worker, now, limit, locked);
    forall k, l | 0 <= k < l < |ids| ensures !SameKey(after[ids[k]], after[ids[l]]) {
      DueApart(es, ids[k], ids[l], now);
    }
    forall k, j | 0 <= k < |ids| && 0 <= j < |after| && after[j].status == Pending && j != ids[k]
      ensures !SameKey(after[ids[k]], after[j])
    {
      PendingApart(es, ids[k], j);
    }
    ClaimKeeps(es, after, ids, worker, now);
  }

  lemma DueApart(es: seq<Event>, i: nat, j: nat, now: int)
    requires IndexHolds(es) && i < |es| && j < |es| && i != j && Due(es[i], now) && Due(es[j], now)
    ensures !SameKey(es[i], es[j])
  {
    PendingApart(es, i, j);
  }

  lemma PendingApart(es: seq<Event>, i: nat, j: nat)
    requires IndexHolds(es) && i < |es| && j < |es| && i != j && es[i].status == Pending && es[j].status == Pending
    ensures !SameKey(es[i], es[j])
  {
    if j < i { assert !SameKey(es[j], es[i]); }
  }

  lemma ClaimKeeps(es: seq<Event>, after: seq<Event>, ids: seq<nat>, worker: nat, now: int)
    requires IndexHolds(es) && |after| == |es|
    requires forall j :: 0 <= j < |es| ==> after[j] == if j in ids then ClaimedRow(es[j], worker, now) else es[j]
    ensures IndexHolds(after)
  {}

  /** The rows a run leaves, after taking back (`freed`) and claiming (`claimed`). */
  ghost predicate Ran(es: seq<Event>, freed: seq<Event>, claimed: seq<Event>, ids: seq<nat>, after: seq<Event>, worker: nat,
                      now: int, handlers: set<string>, works: nat -> bool)
  {
    && |freed| == |claimed| == |after| == |es|
    && (forall i :: 0 <= i < |es| ==> TakenBack(es[i], freed[i], now))
    && (forall i :: 0 <= i < |es| ==> claimed[i] == if i in ids then ClaimedRow(freed[i], worker, now) else freed[i])
    && (forall i :: 0 <= i < |es| ==>
          if i in ids then Settled(claimed[i], after[i], i, handlers, works, now) else after[i] == freed[i])
  }

  /** The first due events that are not locked, each once, and as many as may be. */
  ghost predicate Chosen(es: seq<Event>, ids: seq<nat>, now: int, limit: nat, locked: set<nat>) {
    && (forall k, l :: 0 <= k < l < |ids| ==> ids[k] != ids[l])
    && (forall k :: 0 <= k < |ids| ==> ids[k] < |es| && Due(es[ids[k]], now) && ids[k] !in locked)
    && First(es, ids, now, locked) && |ids| <= limit && (|ids| < limit ==> NothingLeft(es, ids, now, locked))
  }

  /**
   A run crashes exactly when it cannot take the stale claims back, and then it has touched nothing. Otherwise it
   takes back every outlasted claim, claims the first due events, settles each one it claims, touches nothing
   else, and its statistics count just that.
   */
  lemma RunSettles(es: seq<Event>, worker: nat, now: int, limit: nat, locked: set<nat>, handlers: set<string>, works: nat -> bool)
    returns (freed: seq<Event>, claimed: seq<Event>)
    requires IndexHolds(es)
    ensures var r := RunOf(es, worker, now, limit, locked, handlers, works);
            (r.crashed <==> Clash(es, now)) && (r.crashed ==> r.events == es && r.stats == Stats(0, 0, 0, 0, 0))
    ensures var r, ids := RunOf(es, worker, now, limit, locked, handlers, works), ClaimedIn(es, worker, now, limit, locked);
            !r.crashed ==>
              && Chosen(freed, ids, now, limit, locked)
              && Ran(es, freed, claimed, ids, r.events, worker, now, handlers, works)
              && r.stats.stale == |set i | 0 <= i < |es| && Outlasted(es[i], now)| && r.stats.claimed == |ids|
              && r.stats.done == Dones(claimed, ids, handlers, works) && r.stats.dead == Deads(claimed, ids, handlers, works)
              && r.stats.done + r.stats.retry + r.stats.dead == |ids|
  {
    hide IndexHolds, ClaimBatch, Deliver, Failed, First, NothingLeft, Settled, TakenBack;
    ReclaimFailsIff(es, now);
    freed, claimed := es, es;
    if Reclaim(es, now).Some? {
      freed := Reclaim(es, now).value;
      ReclaimIndex(es, now);
      var (after, ids) := ClaimBatch(freed, worker, now, limit, locked);
      claimed := after;
      ClaimTakesDue(freed, worker, now, limit, locked);
      ClaimTakesFirst(freed, worker, now, limit, locked);
      ClaimedInHand(freed, worker, now, limit, locked);
      StaleCounted(es, now);
      DeliverSettles(claimed, ids, handlers, works, now, Stats(StaleCount(es, now), 0, 0, 0, 0));
      DeliverCounts(claimed, ids, handlers, works, now, Stats(StaleCount(es, now), 0, 0, 0, 0));
    }
  }

  lemma ReclaimIndex(es: seq<Event>, now: int)
    requires Reclaim(es, now).Some?
    ensures IndexHolds(Reclaim(es, now).value) && |Reclaim(es, now).value| == |es|
    ensures forall i :: 0 <= i < |es| ==> TakenBack(es[i], Reclaim(es, now).value[i], now)
  {}
}
