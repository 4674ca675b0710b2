/**
 The delivery protocol as a whole: any number of workers that claim, settle, reclaim and die
 (src/control_plane/outbox.py:43-80 and 178-209), and what its claim timeout must guarantee.
 */
module Delivery {
  import opened Options
  import opened Outbox

  // ---- what one operation does ----

  predicate Before(es: seq<Event>, i: nat, j: nat)
    requires i < |es| && j < |es|
  {
    es[i].nextAt < es[j].nextAt || (es[i].nextAt == es[j].nextAt && i < j)
  }

  lemma {:induction false} EarliestIsFirst(es: seq<Event>, now: int, locked: set<nat>)
    ensures Earliest(es, now, locked) == None ==> forall j :: 0 <= j < |es| ==> Due(es[j], now) ==> j in locked
    ensures Earliest(es, now, locked).Some? ==>
              forall j :: 0 <= j < |es| && Due(es[j], now) && j !in locked && j != Earliest(es, now, locked).value
                ==> Before(es, Earliest(es, now, locked).value, j)
  {
    if es != [] {
      var n := |es| - 1;
      EarliestIsFirst(es[..n], now, locked);
      forall j | 0 <= j < n && Due(es[j], now) && j !in locked
        ensures Earliest(es[..n], now, locked).Some?
        ensures j != Earliest(es[..n], now, locked).value ==> Before(es, Earliest(es[..n], now, locked).value, j)
      {
        assert es[..n][j] == es[j];
      }
    }
  }

  /** The row of a claimed event. */
  function ClaimedRow(e: Event, worker: nat, now: int): Event {
    e.(status := Claimed, claimedBy := Some(worker), claimedAt := now, claims := e.claims + 1)
  }

  /** claim takes due events only, each once, and writes just their claim. */
  lemma {:induction false} ClaimTakesDue(es: seq<Event>, worker: nat, now: int, limit: nat, locked: set<nat>)
    ensures var (after, ids) := ClaimBatch(es, worker, now, limit, locked);
            && |after| == |es| && |ids| <= limit
            && (forall k :: 0 <= k < |ids| ==> ids[k] < |es| && Due(es[ids[k]], now) && ids[k] !in locked)
            && (forall k, l :: 0 <= k < l < |ids| ==> ids[k] != ids[l])
            && (forall j :: 0 <= j < |es| ==> after[j] == if j in ids then ClaimedRow(es[j], worker, now) else es[j])
    decreases limit
  {
    if limit > 0 && Earliest(es, now, locked).Some? {
      var i := Earliest(es, now, locked).value;
      var next := Claim1(es, i, worker, now);
      ClaimTakesDue(next, worker, now, limit - 1, locked);
      assert !Due(next[i], now);
    }
  }

  /** What is claimed comes before every due event that is not. */
  ghost predicate First(es: seq<Event>, ids: seq<nat>, now: int, locked: set<nat>) {
    && (forall k :: 0 <= k < |ids| ==> ids[k] < |es|)
    && (forall k, j :: 0 <= k < |ids| && 0 <= j < |es| && j !in ids && j !in locked && Due(es[j], now)
          ==> Before(es, ids[k], j))
  }

  ghost predicate NothingLeft(es: seq<Event>, ids: seq<nat>, now: int, locked: set<nat>) {
    forall j :: 0 <= j < |es| && Due(es[j], now) && j !in locked ==> j in ids
  }

  lemma FirstOfAll(es: seq<Event>, i: nat, rest: seq<nat>, worker: nat, now: int, locked: set<nat>)
    requires Earliest(es, now, locked) == Some(i) && First(Claim1(es, i, worker, now), rest, now, locked)
    ensures First(es, [i] + rest, now, locked)
    ensures NothingLeft(Claim1(es, i, worker, now), rest, now, locked) ==> NothingLeft(es, [i] + rest, now, locked)
  {
    hide Earliest;
    EarliestIsFirst(es, now, locked);
    var next, ids := Claim1(es, i, worker, now), [i] + rest;
    forall k, j | 0 <= k < |ids| && 0 <= j < |es| && j !in ids && j !in locked && Due(es[j], now)
      ensures Before(es, ids[k], j)
    {
      assert next[j] == es[j];
      if k > 0 { assert Before(next, rest[k - 1], j); }
    }
    forall j | 0 <= j < |es| && Due(es[j], now) && j !in locked && NothingLeft(next, rest, now, locked) ensures j in ids {
      if j != i { assert next[j] == es[j]; }
    }
  }

  /** claim takes the first due events in (next_attempt_at, id) order, and fewer than `limit` only when nothing due is left. */
  lemma {:induction false} ClaimTakesFirst(es: seq<Event>, worker: nat, now: int, limit: nat, locked: set<nat>)
    ensures var ids := ClaimBatch(es, worker, now, limit, locked).1;
            First(es, ids, now, locked) && (|ids| < limit ==> NothingLeft(es, ids, now, locked))
    decreases limit
  {
    if limit > 0 && Earliest(es, now, locked).Some? {
      hide First, NothingLeft, Earliest;
      var i := Earliest(es, now, locked).value;
      var next := Claim1(es, i, worker, now);
      ClaimTakesFirst(next, worker, now, limit - 1, locked);
      FirstOfAll(es, i, ClaimBatch(next, worker, now, limit - 1, locked).1, worker, now, locked);
    } else {
      EarliestIsFirst(es, now, locked);
    }
  }

  /** Waits never shrink from one attempt to the next and never exceed the cap. */
  lemma {:induction false} BackoffGrows(a: nat, b: nat)
    requires 1 <= a <= b
    ensures Backoff(a) <= Backoff(b) <= MAX_BACKOFF
    decreases b
  {
    if a < b {
      BackoffGrows(a, b - 1);
      assert Pow2(b - 1) == 2 * Pow2(b - 2);
      assert BASE_BACKOFF * Pow2(b - 1) == 2 * (BASE_BACKOFF * Pow2(b - 2));
    }
  }

  /** A stale claim has a twin that is pending or stale as well. */
  ghost predicate Clash(es: seq<Event>, now: int) {
    exists i, j :: 0 <= i < |es| && 0 <= j < |es| && i != j && SameKey(es[i], es[j])
                   && Stale(es[i], now) && (es[j].status == Pending || Stale(es[j], now))
  }

  /** Taking back stale claims fails, for all of them together, exactly when one of them has such a twin. */
  lemma ReclaimFailsIff(es: seq<Event>, now: int)
    requires IndexHolds(es)
    ensures Reclaim(es, now) == None <==> Clash(es, now)
  {
    var freed := FreedAll(es, now);
    if Clash(es, now) {
      var i, j :| 0 <= i < |es| && 0 <= j < |es| && i != j && SameKey(es[i], es[j])
                  && Stale(es[i], now) && (es[j].status == Pending || Stale(es[j], now));
      var lo, hi := if i < j then i else j, if i < j then j else i;
      assert freed[lo].status == Pending && freed[hi].status == Pending && SameKey(freed[lo], freed[hi]);
    } else {
      forall i, j | 0 <= i < j < |es|
        ensures !(freed[i].status == Pending && freed[j].status == Pending && SameKey(freed[i], freed[j]))
      {
        assert SameKey(freed[i], freed[j]) <==> SameKey(es[i], es[j]) && SameKey(es[j], es[i]);
      }
    }
  }

  // ---- the protocol ----

  /** A worker process and the events it still has to settle, with the time it claimed them. */
  datatype Worker = Worker(alive: bool, holds: map<nat, int>)

  datatype State = State(events: seq<Event>, now: int, workers: seq<Worker>)

  datatype Action =
    | Queue(topic: string, aggregate: nat)
    | Join
    | Tick(seconds: nat)
    | Take(worker: nat, limit: nat, locked: set<nat>)
    | Finish(worker: nat, event: nat)
    | Fail(worker: nat, event: nat)
    | TakeBack(worker: nat)
    | Die(worker: nat)

  ghost predicate Can(st: State, a: Action) {
    match a
    case Queue(_, _) => true
    case Join => true
    case Tick(_) => true
    case Take(w, _, _) => w < |st.workers| && st.workers[w].alive
    case Finish(w, i) => w < |st.workers| && st.workers[w].alive && i in st.workers[w].holds && i < |st.events|
    case Fail(w, i) => w < |st.workers| && st.workers[w].alive && i in st.workers[w].holds && i < |st.events|
    case TakeBack(w) => w < |st.workers| && st.workers[w].alive
    case Die(w) => w < |st.workers|
  }

  function Crash(st: State, w: nat): State
    requires w < |st.workers|
  {
    st.(workers := st.workers[w := st.workers[w].(alive := false)])
  }

  function Release(st: State, w: nat, i: nat, events: seq<Event>): State
    requires w < |st.workers|
  {
    st.(events := events, workers := st.workers[w := st.workers[w].(holds := st.workers[w].holds - {i})])
  }

  /** A write that breaks the unique index raises an error that nothing catches: the worker process ends. */
  function Apply(st: State, a: Action): State
    requires Can(st, a)
  {
    match a
    case Queue(topic, aggregate) => st.(events := Enqueued(st.events, topic, aggregate, st.now))
    case Join => st.(workers := st.workers + [Worker(true, map[])])
    case Tick(d) => st.(now := st.now + d)
    case Take(w, limit, locked) =>
      var (after, ids) := ClaimBatch(st.events, w, st.now, limit, locked);
      var holds := st.workers[w].holds + map i | i in ids :: st.now;
      st.(events := after, workers := st.workers[w := st.workers[w].(holds := holds)])
    case Finish(w, i) => Release(st, w, i, Completed(st.events, i))
    case Fail(w, i) =>
      (match RetriedIn(st.events, i, st.now) case None => Crash(st, w) case Some(after) => Release(st, w, i, after))
    case TakeBack(w) =>
      (match Reclaim(st.events, st.now) case None => Crash(st, w) case Some(after) => st.(events := after))
    case Die(w) => Crash(st, w)
  }

  /** Every claim of a live worker is younger than the claim timeout. */
  ghost predicate Leased(st: State) {
    forall w, i :: 0 <= w < |st.workers| && st.workers[w].alive && i in st.workers[w].holds ==>
      st.now < st.workers[w].holds[i] + CLAIM_TIMEOUT
  }

  predicate EventOk(e: Event) {
    && (e.status == Pending || e.status == Claimed || e.status == Done ==> e.attempts < MAX_ATTEMPTS)
    && (e.status == Dead ==> e.attempts == MAX_ATTEMPTS)
    && e.claims == e.attempts + e.reclaims + (if e.status == Claimed || e.status == Done then 1 else 0)
  }

  /** What a live worker holds is claimed, by it and at that time. */
  ghost predicate HoldsOwn(st: State) {
    forall w, i :: 0 <= w < |st.workers| && st.workers[w].alive && i in st.workers[w].holds ==>
      Owned(st.events, i, w, st.workers[w].holds[i])
  }

  predicate Owned(es: seq<Event>, i: nat, w: nat, since: int) {
    i < |es| && es[i].status == Claimed && es[i].claimedBy == Some(w) && es[i].claimedAt == since
  }

  /** A claimed event was due when it was claimed. */
  ghost predicate ClaimedWhenDue(st: State) {
    forall i :: 0 <= i < |st.events| && st.events[i].status == Claimed ==> st.events[i].nextAt <= st.events[i].claimedAt <= st.now
  }

  /** What every action keeps, leases or not. */
  ghost predicate RowsOk(st: State) {
    && IndexHolds(st.events)
    && (forall i :: 0 <= i < |st.events| ==> EventOk(st.events[i]))
    && ClaimedWhenDue(st)
  }

  ghost predicate Inv(st: State) {
    RowsOk(st) && HoldsOwn(st)
  }

  /** No event is in the hands of two live workers. */
  ghost predicate Exclusive(st: State) {
    forall v, w, i :: 0 <= v < w < |st.workers| && st.workers[v].alive && st.workers[w].alive ==>
      !(i in st.workers[v].holds && i in st.workers[w].holds)
  }

  predicate Over(e: Event) {
    e.status == Done || e.status == Dead
  }

  /** Events are never removed or renamed, and an event that is done or dead never changes again. */
  ghost predicate Absorbing(before: seq<Event>, after: seq<Event>) {
    && |before| <= |after|
    && forall i :: 0 <= i < |before| ==> SameKey(before[i], after[i]) && (Over(before[i]) ==> after[i] == before[i])
  }

  lemma TakeKeeps(st: State, w: nat, limit: nat, locked: set<nat>)
    requires Inv(st) && Can(st, Take(w, limit, locked))
    ensures Inv(Apply(st, Take(w, limit, locked))) && Absorbing(st.events, Apply(st, Take(w, limit, locked)).events)
  {
    var next := Apply(st, Take(w, limit, locked));
    ClaimTakesDue(st.events, w, st.now, limit, locked);
    TakeKeepsRows(st.events, w, st.now, limit, locked);
    forall v, i | 0 <= v < |next.workers| && next.workers[v].alive && i in next.workers[v].holds
      ensures Owned(next.events, i, v, next.workers[v].holds[i])
    {
      if i in st.workers[v].holds { assert Owned(st.events, i, v, st.workers[v].holds[i]); }
    }
  }

  lemma TakeKeepsRows(es: seq<Event>, w: nat, now: int, limit: nat, locked: set<nat>)
    requires IndexHolds(es) && forall i :: 0 <= i < |es| ==> EventOk(es[i])
    requires forall i :: 0 <= i < |es| && es[i].status == Claimed ==> es[i].nextAt <= es[i].claimedAt <= now
    ensures var after := ClaimBatch(es, w, now, limit, locked).0;
            && IndexHolds(after) && Absorbing(es, after) && (forall i :: 0 <= i < |after| ==> EventOk(after[i]))
            && forall i :: 0 <= i < |after| && after[i].status == Claimed ==> after[i].nextAt <= after[i].claimedAt <= now
  {
    ClaimTakesDue(es, w, now, limit, locked);
  }

  lemma TakeBackKeeps(st: State, w: nat)
    requires Inv(st) && Leased(st) && Can(st, TakeBack(w))
    ensures Inv(Apply(st, TakeBack(w))) && Absorbing(st.events, Apply(st, TakeBack(w)).events)
  {
    var next := Apply(st, TakeBack(w));
    forall i | 0 <= i < |next.events| ensures EventOk(next.events[i]) {
      assert EventOk(st.events[i]);
    }
    forall v, i | 0 <= v < |next.workers| && next.workers[v].alive && i in next.workers[v].holds
      ensures Owned(next.events, i, v, next.workers[v].holds[i])
    {
      assert Owned(st.events, i, v, st.workers[v].holds[i]);
    }
  }

  lemma SettleKeeps(st: State, a: Action)
    requires Inv(st) && Can(st, a) && (a.Finish? || a.Fail?)
    ensures Inv(Apply(st, a)) && Absorbing(st.events, Apply(st, a).events)
  {
    var next := Apply(st, a);
    assert EventOk(st.events[a.event]) && Owned(st.events, a.event, a.worker, st.workers[a.worker].holds[a.event]);
    forall w, i | 0 <= w < |next.workers| && next.workers[w].alive && i in next.workers[w].holds
      ensures Owned(next.events, i, w, next.workers[w].holds[i])
    {
      assert Owned(st.events, i, w, st.workers[w].holds[i]);
    }
  }

  lemma QueueKeeps(st: State, a: Action)
    requires Inv(st) && Can(st, a) && a.Queue?
    ensures Inv(Apply(st, a)) && Absorbing(st.events, Apply(st, a).events)
  {
    var next := Apply(st, a);
    forall w, i | 0 <= w < |next.workers| && next.workers[w].alive && i in next.workers[w].holds
      ensures Owned(next.events, i, w, next.workers[w].holds[i])
    {
      assert Owned(st.events, i, w, st.workers[w].holds[i]);
    }
  }

  lemma HoldsExclusive(st: State)
    requires HoldsOwn(st)
    ensures Exclusive(st)
  {
    forall v, w, i | 0 <= v < w < |st.workers| && st.workers[v].alive && st.workers[w].alive
      ensures !(i in st.workers[v].holds && i in st.workers[w].holds)
    {
      if i in st.workers[v].holds { assert Owned(st.events, i, v, st.workers[v].holds[i]); }
      if i in st.workers[w].holds { assert Owned(st.events, i, w, st.workers[w].holds[i]); }
    }
  }

  lemma ActionKeeps(st: State, a: Action)
    requires Inv(st) && Leased(st) && Can(st, a)
    ensures Inv(Apply(st, a)) && Absorbing(st.events, Apply(st, a).events)
  {
    match a {
      case Take(w, limit, locked) => TakeKeeps(st, w, limit, locked);
      case TakeBack(w) => TakeBackKeeps(st, w);
      case Finish(_, _) => SettleKeeps(st, a);
      case Fail(_, _) => SettleKeeps(st, a);
      case Queue(_, _) => QueueKeeps(st, a);
      case _ => QuietKeeps(st, a);
    }
  }

  // ---- when a claim is lost ----

  /** A live worker holds an event for longer than the claim timeout. */
  ghost predicate Outlived(st: State) {
    exists w, i :: 0 <= w < |st.workers| && st.workers[w].alive && i in st.workers[w].holds && i < |st.events|
                   && Stale(st.events[i], st.now)
  }

  lemma LeasedIsNotOutlived(st: State)
    requires Inv(st)
    ensures Leased(st) <==> !Outlived(st)
  {
    forall w, i | 0 <= w < |st.workers| && st.workers[w].alive && i in st.workers[w].holds
      ensures i < |st.events| && (Stale(st.events[i], st.now) <==> st.now >= st.workers[w].holds[i] + CLAIM_TIMEOUT)
    {
      assert Owned(st.events, i, w, st.workers[w].holds[i]);
    }
  }

  lemma TakeBackLosesIff(st: State, w: nat)
    requires Inv(st) && Can(st, TakeBack(w))
    ensures HoldsOwn(Apply(st, TakeBack(w))) <==> !Outlived(st) || Reclaim(st.events, st.now) == None
  {
    var next := Apply(st, TakeBack(w));
    if Reclaim(st.events, st.now).Some? {
      if Outlived(st) {
        var v, i :| 0 <= v < |st.workers| && st.workers[v].alive && i in st.workers[v].holds && i < |st.events|
                    && Stale(st.events[i], st.now);
        assert !Owned(next.events, i, v, next.workers[v].holds[i]);
      } else {
        LeasedIsNotOutlived(st);
        TakeBackKeeps(st, w);
      }
    } else {
      forall v, i | 0 <= v < |next.workers| && next.workers[v].alive && i in next.workers[v].holds
        ensures Owned(next.events, i, v, next.workers[v].holds[i])
      {
        assert Owned(st.events, i, v, st.workers[v].holds[i]);
      }
    }
  }

  /** A worker loses what it holds exactly when stale claims are taken back while a live worker has outlived one. */
  lemma ClaimLostIff(st: State, a: Action)
    requires Inv(st) && Can(st, a)
    ensures !HoldsOwn(Apply(st, a)) <==> a.TakeBack? && Outlived(st) && Reclaim(st.events, st.now).Some?
  {
    match a {
      case Take(w, limit, locked) => TakeKeeps(st, w, limit, locked);
      case TakeBack(w) => TakeBackLosesIff(st, w);
      case Finish(_, _) => SettleKeeps(st, a);
      case Fail(_, _) => SettleKeeps(st, a);
      case Queue(_, _) => QueueKeeps(st, a);
      case _ => QuietKeeps(st, a);
    }
  }

  lemma QuietKeeps(st: State, a: Action)
    requires Inv(st) && Can(st, a) && (a.Join? || a.Tick? || a.Die?)
    ensures Inv(Apply(st, a)) && Absorbing(st.events, Apply(st, a).events)
  {
    var next := Apply(st, a);
    forall v, i | 0 <= v < |next.workers| && next.workers[v].alive && i in next.workers[v].holds
      ensures Owned(next.events, i, v, next.workers[v].holds[i])
    {
      assert Owned(st.events, i, v, st.workers[v].holds[i]);
    }
  }

  // ---- runs ----

  /** A run in which no live worker outlasts its claims. */
  ghost predicate Run(trace: seq<State>, acts: seq<Action>) {
    && |trace| == |acts| + 1 && trace[0].events == [] && trace[0].workers == []
    && (forall i :: 0 <= i < |acts| ==> Can(trace[i], acts[i]) && trace[i + 1] == Apply(trace[i], acts[i]))
    && forall i :: 0 <= i < |trace| ==> Leased(trace[i])
  }

  /**
   With every claim settled, or its worker dead, before the claim timeout: no event is held by
   two live workers, the index is kept, attempts count failures up to the limit exactly at death,
   and every claim is accounted for by a failure, a take-back, a completion or the present claim.
   */
  lemma {:induction false} RunDelivers(trace: seq<State>, acts: seq<Action>, k: nat)
    requires Run(trace, acts) && k < |trace|
    ensures Inv(trace[k]) && Exclusive(trace[k])
  {
    if k > 0 {
      RunDelivers(trace, acts, k - 1);
      ActionKeeps(trace[k - 1], acts[k - 1]);
    }
    HoldsExclusive(trace[k]);
  }

  /** Done and dead are final in every such run. */
  lemma {:induction false} RunAbsorbs(trace: seq<State>, acts: seq<Action>, j: nat, k: nat)
    requires Run(trace, acts) && j <= k < |trace|
    ensures Absorbing(trace[j].events, trace[k].events)
    decreases k - j
  {
    hide Apply, Can, Inv, Leased;
    if j < k {
      RunAbsorbs(trace, acts, j, k - 1);
      RunDelivers(trace, acts, k - 1);
      ActionKeeps(trace[k - 1], acts[k - 1]);
    }
  }

  /** The only event, due, is claimed. */
  lemma ClaimOnly(e: Event, worker: nat, now: int)
    requires Due(e, now)
    ensures ClaimBatch([e], worker, now, 1, {}) == ([ClaimedRow(e, worker, now)], [0])
  {
    assert [e][..0] == [] && Earliest([], now, {}) == None;
    assert Earliest([e], now, {}) == Some(0);
    var next := Claim1([e], 0, worker, now);
    assert next == [ClaimedRow(e, worker, now)];
    assert ClaimBatch(next, worker, now, 0, {}) == (next, []);
    var none: seq<nat> := [];
    assert ClaimBatch([e], worker, now, 1, {}) == (next, [0] + none);
    assert [0] + none == [0];
  }

  /** The only event, due, goes to an idle worker. */
  lemma TakeOnly(e: Event, worker: nat, st: State)
    requires Due(e, st.now) && st.events == [e] && worker < |st.workers| && st.workers[worker] == Worker(true, map[])
    ensures Apply(st, Take(worker, 1, {}))
         == State([ClaimedRow(e, worker, st.now)], st.now, st.workers[worker := Worker(true, map[0 := st.now])])
  {
    hide ClaimBatch;
    ClaimOnly(e, worker, st.now);
    var next := Apply(st, Take(worker, 1, {}));
    assert next.workers[worker].holds == map[0 := st.now];
  }

  /** The state after a series of actions, each of them possible. */
  ghost predicate Leads(st: State, acts: seq<Action>, end: State)
    decreases |acts|
  {
    if acts == [] then st == end else Can(st, acts[0]) && Leads(Apply(st, acts[0]), acts[1..], end)
  }

  lemma LeadsOn(st: State, a: Action, next: State, acts: seq<Action>, end: State)
    requires Can(st, a) && Apply(st, a) == next && Leads(next, acts, end)
    ensures Leads(st, [a] + acts, end)
  {
    assert ([a] + acts)[1..] == acts;
  }

  /** Without the lease the promise can fail: a worker may outlive its claim while another one is there to take it back. */
  lemma ClaimCanBeOutlived(topic: string, aggregate: nat) returns (st: State)
    ensures Leads(State([Event(topic, aggregate, Pending, 0, 0, None, 0, 0, 0)], 0, [Worker(true, map[]), Worker(true, map[])]),
                  [Take(0, 1, {}), Tick(CLAIM_TIMEOUT)], st)
    ensures Inv(st) && Outlived(st) && Reclaim(st.events, st.now).Some? && |st.workers| == 2 && st.workers[1].alive
  {
    var e, idle := Event(topic, aggregate, Pending, 0, 0, None, 0, 0, 0), Worker(true, map[]);
    var start := State([e], 0, [idle, idle]);
    TakeOnly(e, 0, start);
    var held := State([ClaimedRow(e, 0, 0)], 0, [Worker(true, map[0 := 0]), idle]);
    st := held.(now := CLAIM_TIMEOUT);
    LeadsOn(held, Tick(CLAIM_TIMEOUT), st, [], st);
    LeadsOn(start, Take(0, 1, {}), held, [Tick(CLAIM_TIMEOUT)], st);
    assert FreedAll(st.events, st.now) == [Freed(st.events[0])];
    assert Stale(st.events[0], st.now) && 0 in st.workers[0].holds;
  }

  lemma {:induction false} DistinctAreFew(ids: seq<nat>, n: nat)
    requires forall k, l :: 0 <= k < l < |ids| ==> ids[k] != ids[l]
    requires forall k :: 0 <= k < |ids| ==> ids[k] < n
    ensures |ids| <= n
    decreases |ids|
  {
    if ids != [] {
      var last := |ids| - 1;
      if k :| 0 <= k < |ids| && ids[k] == n - 1 {
        var others := ids[k := ids[last]][..last];
        forall i | 0 <= i < last ensures others[i] < n - 1 && (others[i] == if i == k then ids[last] else ids[i]) {}
        DistinctAreFew(others, n - 1);
      } else {
        DistinctAreFew(ids[..last], n - 1);
      }
    }
  }

  /** With room for all, claiming takes every due event. */
  lemma TakesAll(es: seq<Event>, worker: nat, now: int, i: nat)
    requires i < |es| && Due(es[i], now)
    ensures var (after, ids) := ClaimBatch(es, worker, now, |es| + 1, {});
            i in ids && |after| == |es| && after[i] == ClaimedRow(es[i], worker, now)
  {
    hide ClaimBatch;
    ClaimTakesDue(es, worker, now, |es| + 1, {});
    ClaimTakesFirst(es, worker, now, |es| + 1, {});
    DistinctAreFew(ClaimBatch(es, worker, now, |es| + 1, {}).1, |es|);
  }

  /** The event has a twin that waits. */
  predicate WaitingTwin(es: seq<Event>, i: nat)
    requires i < |es|
  {
    exists j :: 0 <= j < |es| && j != i && es[j].status == Pending && SameKey(es[i], es[j])
  }

  lemma RetryFitsIff(es: seq<Event>, i: nat, now: int)
    requires i < |es| && IndexHolds(es) && es[i].status != Pending
    ensures RetriedIn(es, i, now).Some? <==> es[i].attempts + 1 >= MAX_ATTEMPTS || !WaitingTwin(es, i)
  {
    var next := es[i := Retried(es[i], now)];
    if es[i].attempts + 1 < MAX_ATTEMPTS && WaitingTwin(es, i) {
      var j :| 0 <= j < |es| && j != i && es[j].status == Pending && SameKey(es[i], es[j]);
      var lo, hi := if i < j then i else j, if i < j then j else i;
      assert next[lo].status == Pending && next[hi].status == Pending && SameKey(next[lo], next[hi]);
    } else {
      forall k, l | 0 <= k < l < |es| ensures !(next[k].status == Pending && next[l].status == Pending && SameKey(next[k], next[l])) {
        assert SameKey(es[k], es[l]) <==> SameKey(es[l], es[k]);
      }
    }
  }

  /**
   From every such state: another live worker takes the stale claim back, claims the event and completes it;
   and the late worker, which still means to settle it, sends the completed event back to work or declares
   it dead, unless a twin waits and attempts are left.
   */
  lemma LateWorkerRevives(st: State, late: nat, other: nat, i: nat) returns (done: State)
    requires Inv(st) && late < |st.workers| && other < |st.workers| && late != other
    requires st.workers[late].alive && st.workers[other].alive && i in st.workers[late].holds
    requires i < |st.events| && Stale(st.events[i], st.now) && Reclaim(st.events, st.now).Some?
    ensures Leads(st, [TakeBack(other), Take(other, |st.events| + 1, {}), Finish(other, i)], done)
    ensures i < |done.events| && done.events[i].status == Done && Can(done, Fail(late, i))
    ensures i < |Apply(done, Fail(late, i)).events|
    ensures Apply(done, Fail(late, i)).events[i].status != Done <==>
              done.events[i].attempts + 1 >= MAX_ATTEMPTS || !WaitingTwin(done.events, i)
  {
    hide Apply, IndexHolds, Inv, Reclaim;
    var limit := |st.events| + 1;
    var free := Apply(st, TakeBack(other));
    AfterTakeBack(st, other, i);
    var taken := Apply(free, Take(other, limit, {}));
    AfterTake(free, other, i);
    done := Apply(taken, Finish(other, i));
    AfterFinish(taken, late, other, i);
    LeadsOn(taken, Finish(other, i), done, [], done);
    LeadsOn(free, Take(other, limit, {}), taken, [Finish(other, i)], done);
    LeadsOn(st, TakeBack(other), free, [Take(other, limit, {})] + [Finish(other, i)], done);
    assert [TakeBack(other)] + ([Take(other, limit, {})] + [Finish(other, i)])
        == [TakeBack(other), Take(other, limit, {}), Finish(other, i)];
  }

  lemma AfterTakeBack(st: State, other: nat, i: nat)
    requires Inv(st) && Can(st, TakeBack(other)) && Reclaim(st.events, st.now).Some?
    requires i < |st.events| && Stale(st.events[i], st.now)
    ensures var free := Apply(st, TakeBack(other));
            && |free.events| == |st.events| && free.workers == st.workers && free.now == st.now
            && IndexHolds(free.events) && Due(free.events[i], free.now)
  {}

  lemma AfterTake(free: State, other: nat, i: nat)
    requires other < |free.workers| && free.workers[other].alive && i < |free.events|
    requires IndexHolds(free.events) && Due(free.events[i], free.now)
    ensures var taken := Apply(free, Take(other, |free.events| + 1, {}));
            && |taken.events| == |free.events| && taken.now == free.now && |taken.workers| == |free.workers|
            && IndexHolds(taken.events) && taken.events[i].status == Claimed
            && taken.workers[other].alive && i in taken.workers[other].holds
            && forall v :: 0 <= v < |free.workers| && v != other ==> taken.workers[v] == free.workers[v]
  {
    hide ClaimBatch, IndexHolds;
    TakesAll(free.events, other, free.now, i);
    ClaimKeepsIndex(free.events, other, free.now, |free.events| + 1);
  }

  lemma AfterFinish(taken: State, late: nat, other: nat, i: nat)
    requires late < |taken.workers| && other < |taken.workers| && late != other && i < |taken.events| && IndexHolds(taken.events)
    requires taken.workers[late].alive && taken.workers[other].alive
    requires i in taken.workers[late].holds && i in taken.workers[other].holds && taken.events[i].status == Claimed
    ensures var done := Apply(taken, Finish(other, i));
            && i < |done.events| && done.events[i].status == Done && Can(done, Fail(late, i))
            && i < |Apply(done, Fail(late, i)).events|
            && (Apply(done, Fail(late, i)).events[i].status != Done <==>
                  done.events[i].attempts + 1 >= MAX_ATTEMPTS || !WaitingTwin(done.events, i))
  {
    var done := Apply(taken, Finish(other, i));
    CompletedIndex(taken.events, i);
    hide IndexHolds;
    RetryFitsIff(done.events, i, done.now);
  }

  lemma CompletedIndex(es: seq<Event>, i: nat)
    requires i < |es| && IndexHolds(es)
    ensures IndexHolds(Completed(es, i))
  {}

  lemma ClaimKeepsIndex(es: seq<Event>, w: nat, now: int, limit: nat)
    requires IndexHolds(es)
    ensures IndexHolds(ClaimBatch(es, w, now, limit, {}).0)
  {
    ClaimTakesDue(es, w, now, limit, {});
  }

  // ---- a queue that has stopped ----

  datatype Attempt = RunAgain(worker: nat, limit: nat, locked: set<nat>) | QueueMore(topic: string, aggregate: nat) | Wait(seconds: nat)

  function Step(es: seq<Event>, now: int, attempt: Attempt, handlers: set<string>, works: nat -> bool): (seq<Event>, int) {
    match attempt
    case RunAgain(w, limit, locked) => (RunOf(es, w, now, limit, locked, handlers, works).events, now)
    case QueueMore(topic, aggregate) => (Enqueued(es, topic, aggregate, now), now)
    case Wait(d) => (es, now + d)
  }

  /** Rows and time after a series of complete worker runs, new events and waits. */
  function After(es: seq<Event>, now: int, attempts: seq<Attempt>, handlers: set<string>, works: nat -> bool): (seq<Event>, int) {
    if attempts == [] then (es, now)
    else
      var (before, time) := After(es, now, attempts[..|attempts| - 1], handlers, works);
      Step(before, time, attempts[|attempts| - 1], handlers, works)
  }

  lemma ClashStays(es: seq<Event>, now: int, after: seq<Event>, time: int)
    requires Clash(es, now) && es <= after && now <= time
    ensures Clash(after, time)
  {
    var i, j :| 0 <= i < |es| && 0 <= j < |es| && i != j && SameKey(es[i], es[j])
                && Stale(es[i], now) && (es[j].status == Pending || Stale(es[j], now));
    assert after[i] == es[i] && after[j] == es[j];
  }

  lemma RunCrashes(es: seq<Event>, worker: nat, now: int, limit: nat, locked: set<nat>, handlers: set<string>, works: nat -> bool)
    requires IndexHolds(es) && Clash(es, now)
    ensures RunOf(es, worker, now, limit, locked, handlers, works) == RunResult(es, Stats(0, 0, 0, 0, 0), true)
  {
    ReclaimFailsIff(es, now);
  }

  lemma StoppedStep(es: seq<Event>, now: int, attempt: Attempt, handlers: set<string>, works: nat -> bool)
    requires IndexHolds(es) && Clash(es, now)
    ensures var (after, time) := Step(es, now, attempt, handlers, works);
            es <= after && now <= time && IndexHolds(after) && Clash(after, time)
  {
    hide RunOf;
    var (after, time) := Step(es, now, attempt, handlers, works);
    if attempt.RunAgain? { RunCrashes(es, attempt.worker, now, attempt.limit, attempt.locked, handlers, works); }
    ClashStays(es, now, after, time);
  }

  /**
   Once a stale claim has a pending or stale twin, every run of every worker ends in its first
   statement: whatever runs, is queued or waits, no event that was there is ever touched again.
   */
  lemma {:induction false} StoppedForever(es: seq<Event>, now: int, attempts: seq<Attempt>, handlers: set<string>, works: nat -> bool)
    requires IndexHolds(es) && Clash(es, now)
    ensures var (after, time) := After(es, now, attempts, handlers, works);
            && es <= after && now <= time && IndexHolds(after) && Clash(after, time)
            && forall w, limit, locked :: RunOf(after, w, time, limit, locked, handlers, works).crashed
  {
    hide RunOf, Step, Clash, IndexHolds;
    var (after, time) := After(es, now, attempts, handlers, works);
    if attempts != [] {
      var n := |attempts| - 1;
      StoppedForever(es, now, attempts[..n], handlers, works);
      var (before, early) := After(es, now, attempts[..n], handlers, works);
      StoppedStep(before, early, attempts[n], handlers, works);
    }
    forall w, limit, locked ensures RunOf(after, w, time, limit, locked, handlers, works).crashed {
      RunCrashes(after, w, time, limit, locked, handlers, works);
    }
  }

  /** One dead worker is enough: its claimed event is queued again, and then its claim turns stale. */
  lemma DeadWorkerStopsQueue(topic: string, aggregate: nat, worker: nat)
    ensures var claimed := ClaimBatch(Enqueued([], topic, aggregate, 0), worker, 0, 1, {}).0;
            var es := Enqueued(claimed, topic, aggregate, 1);
            IndexHolds(es) && Clash(es, CLAIM_TIMEOUT)
  {
    var e := Event(topic, aggregate, Pending, 0, 0, None, 0, 0, 0);
    ClaimOnly(e, worker, 0);
    var claimed := [ClaimedRow(e, worker, 0)];
    assert Enqueued([], topic, aggregate, 0) == [e];
    var es := Enqueued(claimed, topic, aggregate, 1);
    assert |es| == 2 && SameKey(es[0], es[1]) && Stale(es[0], CLAIM_TIMEOUT) && es[1].status == Pending;
  }

  // ---- events that no handler wants ----

  /** What one run does to an event whose topic has no handler, once it is claimed: a failed attempt. */
  lemma {:induction false} DeliverUnhandled(es: seq<Event>, ids: seq<nat>, handlers: set<string>, works: nat -> bool, now: int,
                                            stats: Stats, i: nat)
    requires forall k :: 0 <= k < |ids| ==> ids[k] < |es|
    requires forall k, l :: 0 <= k < l < |ids| ==> ids[k] != ids[l]
    requires i < |es| && es[i].topic !in handlers
    ensures var r := Deliver(es, ids, handlers, works, now, stats);
            && |r.events| == |es|
            && (i !in ids ==> r.events[i] == es[i])
            && (i in ids ==> r.events[i] == Retried(es[i], now) || (r.crashed && r.events[i] == es[i]))
    decreases |ids|
  {
    hide IndexHolds, Retried;
    if ids != [] {
      var j, rest := ids[0], ids[1..];
      assert forall k :: 0 <= k < |rest| ==> rest[k] == ids[k + 1];
      assert j !in rest;
      var counted := stats.(claimed := stats.claimed + 1);
      if es[j].topic in handlers && works(j) {
        DeliverUnhandled(Completed(es, j), rest, handlers, works, now, counted.(done := counted.done + 1), i);
      } else if RetriedIn(es, j, now).Some? {
        var next := RetriedIn(es, j, now).value;
        var after := if next[j].status == Pending then counted.(retry := counted.retry + 1) else counted.(dead := counted.dead + 1);
        assert next[i].topic == es[i].topic by { RetriedTopic(es[j], now); }
        DeliverUnhandled(next, rest, handlers, works, now, after, i);
      }
    }
  }

  lemma RetriedTopic(e: Event, now: int)
    ensures Retried(e, now).topic == e.topic
  {}

  /** The events a run claims, unless it ends before it gets there. */
  function ClaimedIn(es: seq<Event>, worker: nat, now: int, limit: nat, locked: set<nat>): seq<nat> {
    match Reclaim(es, now) case None => [] case Some(freed) => ClaimBatch(freed, worker, now, limit, locked).1
  }

  /** An event that still awaits an attempt, or is dead after its last one. */
  predicate Unserved(e: Event) {
    && e.status != Done && e.attempts <= MAX_ATTEMPTS
    && (e.status == Dead <==> e.attempts == MAX_ATTEMPTS)
  }

  /** One run: the attempts of an unhandled event count the runs that claim it and do not crash on the way. */
  lemma RunUnhandled(es: seq<Event>, worker: nat, now: int, limit: nat, locked: set<nat>, handlers: set<string>,
                     works: nat -> bool, i: nat)
    requires i < |es| && es[i].topic !in handlers && Unserved(es[i])
    ensures var r := RunOf(es, worker, now, limit, locked, handlers, works);
            && |r.events| == |es| && Unserved(r.events[i]) && r.events[i].topic == es[i].topic
            && es[i].attempts <= r.events[i].attempts
            && (!r.crashed ==>
                  r.events[i].attempts == es[i].attempts + (if i in ClaimedIn(es, worker, now, limit, locked) then 1 else 0))
  {
    hide IndexHolds, Deliver;
    if Reclaim(es, now).Some? {
      var freed := Reclaim(es, now).value;
      ClaimTakesDue(freed, worker, now, limit, locked);
      var (claimed, ids) := ClaimBatch(freed, worker, now, limit, locked);
      DeliverUnhandled(claimed, ids, handlers, works, now, Stats(StaleCount(es, now), 0, 0, 0, 0), i);
    }
  }

  /** How many runs of a series claimed the event; runs that crash do not count. */
  function Tries(es: seq<Event>, now: int, attempts: seq<Attempt>, handlers: set<string>, works: nat -> bool, i: nat): nat {
    if attempts == [] then 0
    else
      var n := |attempts| - 1;
      var (before, time) := After(es, now, attempts[..n], handlers, works);
      Tries(es, now, attempts[..n], handlers, works, i)
      + (match attempts[n]
         case RunAgain(w, limit, locked) =>
           if !RunOf(before, w, time, limit, locked, handlers, works).crashed && i in ClaimedIn(before, w, time, limit, locked) then 1
           else 0
         case _ => 0)
  }

  ghost predicate NoCrash(es: seq<Event>, now: int, attempts: seq<Attempt>, handlers: set<string>, works: nat -> bool) {
    forall n :: 0 <= n < |attempts| && attempts[n].RunAgain? ==>
      var (before, time) := After(es, now, attempts[..n], handlers, works);
      !RunOf(before, attempts[n].worker, time, attempts[n].limit, attempts[n].locked, handlers, works).crashed
  }

  lemma NoCrashBefore(es: seq<Event>, now: int, attempts: seq<Attempt>, handlers: set<string>, works: nat -> bool)
    requires attempts != [] && NoCrash(es, now, attempts, handlers, works)
    ensures NoCrash(es, now, attempts[..|attempts| - 1], handlers, works)
  {
    hide After, RunOf;
    var early := attempts[..|attempts| - 1];
    forall n | 0 <= n < |early| ensures early[..n] == attempts[..n] && early[n] == attempts[n] {}
  }

  /**
   An event whose topic has no handler, as panel_order.approved has none, is never done, whatever runs, is
   queued or waits. Every run that claims it and does not crash is one more failed attempt; so it is dead
   once MAX_ATTEMPTS such runs have claimed it, and if no run crashes, not before.
   */
  lemma {:induction false} UnhandledOnlyDies(es: seq<Event>, now: int, attempts: seq<Attempt>, handlers: set<string>, works: nat -> bool,
                                             i: nat)
    requires i < |es| && es[i].topic !in handlers && es[i].status == Pending && es[i].attempts == 0
    ensures var after, tries := After(es, now, attempts, handlers, works).0, Tries(es, now, attempts, handlers, works, i);
            && i < |after| && after[i].topic == es[i].topic && Unserved(after[i])
            && tries <= after[i].attempts
            && (tries == MAX_ATTEMPTS ==> after[i].status == Dead)
            && (NoCrash(es, now, attempts, handlers, works) ==> (after[i].status == Dead <==> tries == MAX_ATTEMPTS))
            && (NoCrash(es, now, attempts, handlers, works) ==> tries == after[i].attempts)
  {
    hide RunOf, ClaimedIn, IndexHolds, NoCrash;
    if attempts != [] {
      var n := |attempts| - 1;
      UnhandledOnlyDies(es, now, attempts[..n], handlers, works, i);
      var (before, time) := After(es, now, attempts[..n], handlers, works);
      if NoCrash(es, now, attempts, handlers, works) {
        NoCrashBefore(es, now, attempts, handlers, works);
        if attempts[n].RunAgain? { LastDoesNotCrash(es, now, attempts, handlers, works); }
      }
      if attempts[n].RunAgain? {
        RunUnhandled(before, attempts[n].worker, time, attempts[n].limit, attempts[n].locked, handlers, works, i);
      }
    }
  }

  lemma LastDoesNotCrash(es: seq<Event>, now: int, attempts: seq<Attempt>, handlers: set<string>, works: nat -> bool)
    requires attempts != [] && NoCrash(es, now, attempts, handlers, works) && attempts[|attempts| - 1].RunAgain?
    ensures var n := |attempts| - 1;
            var (before, time) := After(es, now, attempts[..n], handlers, works);
            !RunOf(before, attempts[n].worker, time, attempts[n].limit, attempts[n].locked, handlers, works).crashed
  {}

  lemma OrderTopicIsUnhandled()
    ensures "panel_order.approved" !in HANDLERS
  {
    assert |"panel_order.approved"| == 20 && |"billing.hold_required"| == 21 && |"usage.reset_detected"| == 20
        && |"approval.granted"| == 16 && |"support.ticket"| == 14;
    assert "panel_order.approved"[0] != "usage.reset_detected"[0];
  }

  /** The statistics of a run that did not crash add up. */
  lemma {:induction false} StatsAddUp(es: seq<Event>, ids: seq<nat>, handlers: set<string>, works: nat -> bool, now: int, stats: Stats)
    requires forall k :: 0 <= k < |ids| ==> ids[k] < |es|
    requires !Deliver(es, ids, handlers, works, now, stats).crashed
    ensures var end := Deliver(es, ids, handlers, works, now, stats).stats;
            && end.claimed == stats.claimed + |ids| && end.stale == stats.stale
            && end.done + end.retry + end.dead == stats.done + stats.retry + stats.dead + |ids|
    decreases |ids|
  {
    if ids != [] {
      var i, counted := ids[0], stats.(claimed := stats.claimed + 1);
      if es[i].topic in handlers && works(i) {
        StatsAddUp(Completed(es, i), ids[1..], handlers, works, now, counted.(done := counted.done + 1));
      } else {
        var next := RetriedIn(es, i, now).value;
        StatsAddUp(next, ids[1..], handlers, works, now,
                   if next[i].status == Pending then counted.(retry := counted.retry + 1)
                   else counted.(dead := counted.dead + 1));
      }
    }
  }
}
