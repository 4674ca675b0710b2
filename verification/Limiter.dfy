/**
 The per-caller rate limiter (src/control_plane/observability.py:84-110). Its comment calls it a
 fixed-window counter; the code keeps a sliding log of admitted calls, and that is what is modelled.
 */
module Limiter {
  /** Above this many callers the whole table is dropped. */
  const CAPACITY := 50_000

  datatype Rule = Rule(limit: int, window: int)

  function Times(hits: map<string, seq<real>>, key: string): seq<real> {
    if key in hits then hits[key] else []
  }

  function Pruned(times: seq<real>, window: int, now: real): seq<real> {
    if times != [] && now - times[0] > window as real then Pruned(times[1..], window, now) else times
  }

  /** allow, as a function on the table of admitted times. */
  function Admit(hits: map<string, seq<real>>, rule: Rule, key: string, now: real): (map<string, seq<real>>, bool) {
    if rule.limit <= 0 then (hits, true)
    else
      var kept := Pruned(Times(hits, key), rule.window, now);
      if |kept| >= rule.limit then (hits[key := kept], false)
      else
        var next := hits[key := kept + [now]];
        (if |next| > CAPACITY then map[] else next, true)
  }

  class RateLimiter {
    const rule: Rule
    var hits: map<string, seq<real>>

    constructor (limit: int, window: int)
      ensures rule == Rule(limit, window) && hits == map[]
    {
      rule := Rule(limit, window);
      hits := map[];
    }

    method Allow(key: string, now: real) returns (ok: bool)
      modifies this
      ensures (hits, ok) == Admit(old(hits), rule, key, now)
    {
      if rule.limit <= 0 {
        return true;
      }
      var times := Times(hits, key);
      while times != [] && now - times[0] > rule.window as real
        invariant Pruned(times, rule.window, now) == Pruned(Times(hits, key), rule.window, now)
        decreases |times|
      {
        times := times[1..];
      }
      hits := hits[key := times];
      if |times| >= rule.limit {
        return false;
      }
      hits := hits[key := times + [now]];
      assert hits == old(hits)[key := times + [now]];
      if |hits| > CAPACITY {
        hits := map[];
      }
      ok := true;
    }

    method Reset()
      modifies this
      ensures hits == map[]
    {
      hits := map[];
    }
  }

  // ---- whole runs ----

  datatype Call = Ask(key: string, now: real) | Clear

  function After(rule: Rule, calls: seq<Call>): map<string, seq<real>> {
    if calls == [] then map[]
    else
      match calls[|calls| - 1]
      case Clear => map[]
      case Ask(key, now) => Admit(After(rule, calls[..|calls| - 1]), rule, key, now).0
  }

  /** The times at which `key` was admitted since the table was last cleared or reset. */
  function Log(rule: Rule, calls: seq<Call>, key: string): seq<real> {
    if calls == [] then []
    else
      var early := calls[..|calls| - 1];
      match calls[|calls| - 1]
      case Clear => []
      case Ask(k, now) =>
        var (after, ok) := Admit(After(rule, early), rule, k, now);
        if ok && after == map[] then [] else if ok && k == key then Log(rule, early, key) + [now] else Log(rule, early, key)
  }

  /** The clock never goes back from one call to the next, up to `now`. */
  predicate Ordered(calls: seq<Call>, now: real) {
    calls == [] || (
      var last := calls[|calls| - 1];
      (last.Ask? ==> last.now <= now) && Ordered(calls[..|calls| - 1], if last.Ask? then last.now else now))
  }

  /** What pruning drops is too old, and what it keeps starts inside the window. */
  lemma {:induction false} PrunedSplits(times: seq<real>, window: int, now: real)
    ensures var kept := Pruned(times, window, now);
            && |kept| <= |times| && kept == times[|times| - |kept|..]
            && (forall i :: 0 <= i < |times| - |kept| ==> now - times[i] > window as real)
            && (kept != [] ==> now - kept[0] <= window as real)
  {
    if times != [] && now - times[0] > window as real { PrunedSplits(times[1..], window, now); }
  }

  /** The table keeps the newest admitted times, in order, at most `limit` of them; the others are out of the window. */
  ghost predicate Kept(log: seq<real>, kept: seq<real>, rule: Rule, now: real) {
    && |kept| <= rule.limit && |kept| <= |log| && kept == log[|log| - |kept|..]
    && (forall i, j :: 0 <= i < j < |log| ==> log[i] <= log[j])
    && (forall i :: 0 <= i < |log| ==> log[i] <= now)
    && (forall i :: 0 <= i < |log| - |kept| ==> now - log[i] > rule.window as real)
    && (forall i, j :: 0 <= i && j == i + rule.limit && j < |log| ==> log[j] - log[i] > rule.window as real)
  }

  lemma KeptLater(log: seq<real>, kept: seq<real>, rule: Rule, now: real, later: real)
    requires Kept(log, kept, rule, now) && now <= later
    ensures Kept(log, kept, rule, later)
  {}

  lemma KeptPruned(log: seq<real>, kept: seq<real>, rule: Rule, now: real)
    requires Kept(log, kept, rule, now)
    ensures Kept(log, Pruned(kept, rule.window, now), rule, now)
    ensures |Pruned(kept, rule.window, now)| <= rule.limit
  {
    PrunedSplits(kept, rule.window, now);
    var rest := Pruned(kept, rule.window, now);
    forall i | 0 <= i < |log| - |rest| ensures now - log[i] > rule.window as real {
      if i >= |log| - |kept| { assert kept[i - (|log| - |kept|)] == log[i]; }
    }
  }

  lemma KeptAdmitted(log: seq<real>, kept: seq<real>, rule: Rule, now: real)
    requires Kept(log, kept, rule, now) && |kept| < rule.limit
    ensures Kept(log + [now], kept + [now], rule, now)
  {}

  lemma NoTimes(key: string)
    ensures Times(map[], key) == []
  {}

  lemma KeptNothing(rule: Rule, now: real)
    requires rule.limit > 0
    ensures Kept([], [], rule, now)
  {}

  lemma AskKeeps(hits: map<string, seq<real>>, rule: Rule, key: string, log: seq<real>, now: real)
    requires rule.limit > 0 && Kept(log, Times(hits, key), rule, now)
    ensures var (after, ok) := Admit(hits, rule, key, now);
            Kept(if !ok then log else if after == map[] then [] else log + [now], Times(after, key), rule, now)
  {
    hide Kept, Pruned;
    KeptNothing(rule, now);
    KeptPruned(log, Times(hits, key), rule, now);
    var kept := Pruned(Times(hits, key), rule.window, now);
    if |kept| < rule.limit { KeptAdmitted(log, kept, rule, now); }
  }

  lemma AskOther(hits: map<string, seq<real>>, rule: Rule, asked: string, key: string, now: real)
    requires asked != key
    ensures var (after, ok) := Admit(hits, rule, asked, now);
            Times(after, key) == if ok && after == map[] then [] else Times(hits, key)
  {
    hide Pruned;
  }

  lemma {:induction false} RunKeeps(rule: Rule, calls: seq<Call>, key: string, now: real)
    requires rule.limit > 0 && Ordered(calls, now)
    ensures Kept(Log(rule, calls, key), Times(After(rule, calls), key), rule, now)
  {
    hide Kept, Pruned, Admit, Times;
    KeptNothing(rule, now);
    assert Times(map[], key) == [] by { NoTimes(key); }
    if calls != [] && calls[|calls| - 1].Ask? {
      var early, ask := calls[..|calls| - 1], calls[|calls| - 1];
      RunKeeps(rule, early, key, ask.now);
      KeptNothing(rule, ask.now);
      var log, times := Log(rule, early, key), Times(After(rule, early), key);
      if ask.key == key {
        AskKeeps(After(rule, early), rule, key, log, ask.now);
      } else {
        AskOther(After(rule, early), rule, ask.key, key, ask.now);
      }
      KeptLater(Log(rule, calls, key), Times(After(rule, calls), key), rule, ask.now, now);
    }
  }

  /** Between clears, any limit + 1 admitted calls of one caller in a row span more than the window. */
  lemma AdmittedAreSpread(rule: Rule, calls: seq<Call>, key: string, now: real, i: nat)
    requires rule.limit > 0 && Ordered(calls, now) && i + rule.limit < |Log(rule, calls, key)|
    ensures Log(rule, calls, key)[i + rule.limit] - Log(rule, calls, key)[i] > rule.window as real
  {
    RunKeeps(rule, calls, key, now);
  }

  /** How many of the times lie within the window before `now`. */
  function Recent(log: seq<real>, window: int, now: real): nat {
    if log == [] then 0
    else Recent(log[..|log| - 1], window, now) + (if now - log[|log| - 1] <= window as real then 1 else 0)
  }

  lemma {:induction false} RecentIsTail(log: seq<real>, window: int, now: real, n: nat)
    requires n <= |log|
    requires forall i :: 0 <= i < |log| ==> (now - log[i] <= window as real <==> i >= |log| - n)
    ensures Recent(log, window, now) == n
  {
    if log != [] { RecentIsTail(log[..|log| - 1], window, now, if n > 0 then n - 1 else 0); }
  }

  lemma RecentOfKept(log: seq<real>, kept: seq<real>, rule: Rule, now: real)
    requires Kept(log, kept, rule, now) && (kept != [] ==> now - kept[0] <= rule.window as real)
    ensures Recent(log, rule.window, now) == |kept|
  {
    forall i | 0 <= i < |log| ensures now - log[i] <= rule.window as real <==> i >= |log| - |kept| {
      if i >= |log| - |kept| {
        assert kept[0] == log[|log| - |kept|] <= log[i];
      }
    }
    RecentIsTail(log, rule.window, now, |kept|);
  }

  /** A call is refused exactly when `limit` calls were admitted within the window before it, and never more were. */
  lemma RefusedIffFull(rule: Rule, calls: seq<Call>, key: string, now: real)
    requires rule.limit > 0 && Ordered(calls, now)
    ensures var recent := Recent(Log(rule, calls, key), rule.window, now);
            && recent <= rule.limit
            && (!Admit(After(rule, calls), rule, key, now).1 <==> recent == rule.limit)
  {
    hide Kept, Pruned, Recent, Log, After;
    RunKeeps(rule, calls, key, now);
    var log, times := Log(rule, calls, key), Times(After(rule, calls), key);
    KeptPruned(log, times, rule, now);
    PrunedSplits(times, rule.window, now);
    RecentOfKept(log, Pruned(times, rule.window, now), rule, now);
  }

  lemma SizeAfterUpdate(hits: map<string, seq<real>>, key: string, times: seq<real>)
    ensures |hits[key := times]| == |hits| + (if key in hits then 0 else 1)
  {
    var next := hits[key := times];
    assert next.Keys == hits.Keys + {key};
    if key in hits { assert next.Keys == hits.Keys; }
  }

  /** One call: the table is dropped exactly when a new caller is admitted to a full one. */
  lemma DroppedIffFull(hits: map<string, seq<real>>, rule: Rule, key: string, now: real)
    requires rule.limit > 0 && |hits| <= 50_000
    ensures var (after, ok) := Admit(hits, rule, key, now);
            && |after| <= 50_000
            && (after == map[] <==> key !in hits && |hits| == 50_000)
            && (after != map[] ==> after.Keys == hits.Keys + {key})
  {
    hide Pruned;
    var kept := Pruned(Times(hits, key), rule.window, now);
    SizeAfterUpdate(hits, key, kept);
    SizeAfterUpdate(hits, key, kept + [now]);
    if key !in hits { NothingPruned(rule.window, now); }
    assert key in hits[key := kept] && key in hits[key := kept + [now]];
  }

  lemma NothingPruned(window: int, now: real)
    ensures Pruned([], window, now) == []
  {}

  /** In every run the table holds at most 50,000 callers, and an admission drops it only when it would hold one more. */
  lemma {:induction false} TableIsBounded(rule: Rule, calls: seq<Call>, key: string, now: real)
    requires rule.limit > 0
    ensures |After(rule, calls)| <= 50_000
    ensures Admit(After(rule, calls), rule, key, now).0 == map[] <==> key !in After(rule, calls) && |After(rule, calls)| == 50_000
  {
    hide Admit;
    if calls != [] && calls[|calls| - 1].Ask? {
      var early, ask := calls[..|calls| - 1], calls[|calls| - 1];
      TableIsBounded(rule, early, ask.key, ask.now);
      DroppedIffFull(After(rule, early), rule, ask.key, ask.now);
    }
    DroppedIffFull(After(rule, calls), rule, key, now);
  }

  /** A limit of zero or less admits everybody. */
  lemma {:induction false} NoLimitNoRefusal(rule: Rule, calls: seq<Call>, key: string, now: real)
    requires rule.limit <= 0
    ensures After(rule, calls) == map[] && Admit(After(rule, calls), rule, key, now) == (map[], true)
  {
    if calls != [] && calls[|calls| - 1].Ask? {
      NoLimitNoRefusal(rule, calls[..|calls| - 1], calls[|calls| - 1].key, calls[|calls| - 1].now);
    }
  }
}
