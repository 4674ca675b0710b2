/**
 Whole runs of readings of one binding, kept in part or in full: which charges the journal holds for
 which pairs of readings, and what becomes of a settlement that was interrupted.
 */
module Epochs {
  import opened Options
  import opened Ledger
  import opened Pricing
  import opened Resellers
  import opened Settlement
  import opened Metering

  // ---- plans follow the tree ----

  ghost predicate Bound(s: Shop, b: nat) {
    && b in s.bindings && s.bindings[b].org < |s.tree.orgs| && TreeOk(s.tree) && MeterOk(MeterOf(s, b))
    && Consistent(s.books) && Covered(s.books, s.tree.orgs)
  }

  /** The chain of a bound organization; it always exists in a well-formed tree. */
  function ChainOf(s: Shop, b: nat): seq<Edge> {
    if b !in s.bindings then []
    else match Edges(s.tree, s.bindings[b].org) case Chain(es) => es case Broken(_) => []
  }

  /** The lifetime at the checkpoint. */
  function Mark(s: Shop, b: nat): int {
    match MeterOf(s, b).checkpoint case Some(cp) => cp.lifetime case None => 0
  }

  /** The reading lies above the checkpoint. */
  predicate Above(s: Shop, b: nat, x: nat) {
    b in s.bindings && MeterOf(s, b).checkpoint.Some? && x > Mark(s, b)
  }

  /** What a reading is to be charged: nothing unless it lies above the checkpoint and can be priced. */
  function Charges(s: Shop, b: nat, x: nat): seq<Charge> {
    if !Above(s, b, x) then []
    else match PlanFor(s, s.bindings[b], x - Mark(s, b)) case Planned(rows) => rows case NotPlanned(_) => []
  }

  /** How many levels a reading gets through, new or replayed. */
  function Reach(s: Shop, b: nat, x: nat): nat {
    Finished(s.books, s.tree.orgs, b, Mark(s, b), x, Charges(s, b, x))
  }

  /** The reading is above the checkpoint and is accepted. */
  predicate Accepts(s: Shop, b: nat, x: nat) {
    Above(s, b, x) && Observe(s, b, x).1.Settled?
  }

  /** A plan has one charge per level of the chain, in order; none for a zero delta. */
  lemma PlanLinks(s: Shop, b: nat, delta: int, charges: seq<Charge>)
    requires Bound(s, b) && PlanFor(s, s.bindings[b], delta) == Planned(charges)
    ensures Linked(charges) && |charges| == (if delta > 0 then |ChainOf(s, b)| else 0)
    ensures forall i :: 0 <= i < |charges| ==> charges[i].child == ChainOf(s, b)[i].child
  {
    ChainLinks(s.tree, s.bindings[b].org);
    PlanCascade(s, b, delta, charges);
    CascadeLinks(delta, ChainOf(s, b), Coefficient(s.coefs, s.bindings[b].panel), charges);
  }

  lemma PlanCascade(s: Shop, b: nat, delta: int, charges: seq<Charge>)
    requires b in s.bindings && PlanFor(s, s.bindings[b], delta) == Planned(charges)
    ensures Cascade(delta, ChainOf(s, b), Coefficient(s.coefs, s.bindings[b].panel)) == Ok(charges)
  {}

  lemma CascadeLinks(delta: int, es: seq<Edge>, coef: int, charges: seq<Charge>)
    requires Cascade(delta, es, coef) == Ok(charges)
    requires forall i :: 0 <= i < |es| - 1 ==> es[i].parent == es[i + 1].child
    requires forall i :: 0 <= i < |es| ==> es[i].parent < es[i].child
    requires forall i, j :: 0 <= i < j < |es| ==> es[j].child < es[i].child
    ensures Linked(charges) && |charges| == (if delta > 0 then |es| else 0)
    ensures forall i :: 0 <= i < |charges| ==> charges[i].child == es[i].child
  {
    forall i | 0 <= i < |charges| ensures charges[i].child == es[i].child && charges[i].parent == es[i].parent {}
  }

  lemma ChargesLink(s: Shop, b: nat, x: nat)
    requires Bound(s, b)
    ensures Linked(Charges(s, b, x)) && Reach(s, b, x) <= |Charges(s, b, x)|
    ensures Charges(s, b, x) != [] ==> |Charges(s, b, x)| == |ChainOf(s, b)| && Above(s, b, x)
    ensures forall i :: 0 <= i < |Charges(s, b, x)| ==> Charges(s, b, x)[i].child == ChainOf(s, b)[i].child
  {
    hide TreeOk, Consistent, Covered, MeterOk, PlanFor, Edges;
    if Charges(s, b, x) != [] { PlanLinks(s, b, x - Mark(s, b), Charges(s, b, x)); }
  }

  lemma SameChain(s: Shop, after: Shop, b: nat)
    requires after.tree == s.tree && after.bindings == s.bindings
    ensures ChainOf(after, b) == ChainOf(s, b)
  {}

  // ---- what a reading does ----

  /** A reading above the checkpoint ends as its plan and the payment of its plan do. */
  lemma AboveUnfolds(s: Shop, b: nat, x: nat)
    requires Above(s, b, x)
    ensures var (after, o) := Observe(s, b, x);
            var plan := PlanFor(s, s.bindings[b], x - Mark(s, b));
            && (plan.NotPlanned? ==> after == s && !o.Settled?)
            && (plan.Planned? ==>
                  var (books, how) := Settle(s.books, s.tree.orgs, b, Mark(s, b), x, plan.charges, 0);
                  if how == Paid then
                    && o == Settled(plan.charges)
                    && after == s.(books := books, meters := s.meters[b := Accept(MeterOf(s, b), MeterOf(s, b).checkpoint.value, x)])
                  else !o.Settled? && after == s.(books := books))
  {
    hide Settle, PlanFor;
  }

  /** Any other reading leaves the books alone. */
  lemma BelowUnfolds(s: Shop, b: nat, x: nat)
    requires !Above(s, b, x) && Bound(s, b)
    ensures Observe(s, b, x).0.books == s.books
  {
    hide TreeOk, Consistent, Covered, MeterOk;
    if MeterOf(s, b).checkpoint.Some? && x == Mark(s, b) {
      var plan := PlanFor(s, s.bindings[b], 0);
      if plan.Planned? { PlanCascade(s, b, 0, plan.charges); }
    }
  }

  /**
   Whatever becomes of a reading, the journal gains exactly the charges it misses of the levels the
   reading got through: all levels if it is accepted.
   */
  lemma ReadingFiles(s: Shop, b: nat, x: nat)
    requires Bound(s, b)
    ensures Observe(s, b, x).0.books.journal
         == s.books.journal + MissingTxs(s.books.journal, b, Mark(s, b), x, Charges(s, b, x)[..Reach(s, b, x)])
    ensures Accepts(s, b, x) ==> Reach(s, b, x) == |Charges(s, b, x)| == |ChainOf(s, b)|
  {
    hide TreeOk, Consistent, Covered, MeterOk, PlanFor, Settle, Finished, Observe;
    ChargesLink(s, b, x);
    SettleJournal(s.books, s.tree.orgs, b, Mark(s, b), x, Charges(s, b, x), 0);
    if Above(s, b, x) {
      AboveUnfolds(s, b, x);
      var plan := PlanFor(s, s.bindings[b], x - Mark(s, b));
      if plan.Planned? { PlanLinks(s, b, x - Mark(s, b), plan.charges); }
    } else {
      BelowUnfolds(s, b, x);
    }
  }

  lemma ReadingKeepsBooks(s: Shop, b: nat, x: nat)
    requires Bound(s, b)
    ensures Consistent(Observe(s, b, x).0.books) && Covered(Observe(s, b, x).0.books, s.tree.orgs)
  {
    hide TreeOk, Consistent, Covered, MeterOk, PlanFor, Settle, Observe;
    if Above(s, b, x) {
      AboveUnfolds(s, b, x);
      var plan := PlanFor(s, s.bindings[b], x - Mark(s, b));
      if plan.Planned? { SettleKeepsBooks(s.books, s.tree.orgs, b, Mark(s, b), x, plan.charges, 0); }
    } else {
      BelowUnfolds(s, b, x);
    }
  }

  lemma ReadingFrame(s: Shop, b: nat, x: nat)
    ensures var after := Observe(s, b, x).0;
            && after.tree == s.tree && after.bindings == s.bindings && after.coefs == s.coefs
            && MeterOf(s, b).rows <= MeterOf(after, b).rows
  {
    hide Settle, PlanFor;
  }

  lemma ReadingKeepsBound(s: Shop, b: nat, x: nat)
    requires Bound(s, b)
    ensures Bound(Observe(s, b, x).0, b) && ChainOf(Observe(s, b, x).0, b) == ChainOf(s, b)
  {
    hide TreeOk, Consistent, Covered, MeterOk, Observe;
    ReadingFrame(s, b, x);
    ReadingKeepsBooks(s, b, x);
    ObserveKeepsMeter(s, b, x);
    SameChain(s, Observe(s, b, x).0, b);
  }

  // ---- accepted pairs of readings ----

  /** The interval was accepted at some time, in this epoch or an earlier one. */
  ghost predicate AcceptedSpan(rows: seq<UsageRow>, from: int, to: int) {
    from < to && exists k :: 0 <= k < |rows| && rows[k] == UsageRow(Accepted, to, to - from)
  }

  lemma SpanAdded(rows: seq<UsageRow>, r: UsageRow, from: int, to: int)
    ensures AcceptedSpan(rows + [r], from, to)
       <==> AcceptedSpan(rows, from, to) || (from < to && r == UsageRow(Accepted, to, to - from))
  {
    var all := rows + [r];
    if from < to && r == UsageRow(Accepted, to, to - from) { assert all[|rows|] == UsageRow(Accepted, to, to - from); }
    if AcceptedSpan(rows, from, to) {
      var k :| 0 <= k < |rows| && rows[k] == UsageRow(Accepted, to, to - from);
      assert all[k] == UsageRow(Accepted, to, to - from);
    }
  }

  lemma MeterMoves(s: Shop, b: nat, x: nat)
    requires b in s.bindings
    ensures var m, n, o := MeterOf(s, b), MeterOf(Observe(s, b, x).0, b), Observe(s, b, x).1;
            if m.checkpoint == None then n == Meter(Some(Checkpoint(x, 0)), m.rows + [UsageRow(Baseline, x, 0)])
            else if x < Mark(s, b) then n == Regress(m, m.checkpoint.value, x)
            else if o.Settled? then n == Accept(m, m.checkpoint.value, x)
            else n == m
  {
    hide Settle, PlanFor, Regress, Accept;
  }

  /** Only an accepted growth adds a pair of readings. */
  lemma SpansMove(s: Shop, b: nat, x: nat, from: int, to: int)
    requires b in s.bindings
    ensures AcceptedSpan(MeterOf(Observe(s, b, x).0, b).rows, from, to)
       <==> AcceptedSpan(MeterOf(s, b).rows, from, to) || (Accepts(s, b, x) && from == Mark(s, b) && to == x)
  {
    hide Observe, AcceptedSpan;
    MeterMoves(s, b, x);
    var m := MeterOf(s, b);
    SpanAdded(m.rows, UsageRow(Baseline, x, 0), from, to);
    SpanAdded(m.rows, UsageRow(Regression, x, 0), from, to);
    SpanAdded(m.rows + [UsageRow(Regression, x, 0)], UsageRow(ResetBaseline, x, 0), from, to);
    SpanAdded(m.rows, UsageRow(Accepted, x, x - Mark(s, b)), from, to);
  }

  // ---- the journal and the pairs of readings ----

  predicate OnFile(journal: seq<Tx>, b: nat, from: int, to: int, c: nat) {
    Has(journal, UsageKey(b, from, to, c))
  }

  predicate OnChain(es: seq<Edge>, c: nat) {
    exists i :: 0 <= i < |es| && es[i].child == c
  }

  lemma {:induction false} HasMissing(journal: seq<Tx>, b: nat, from: int, to: int, rows: seq<Charge>, key: Key)
    ensures Has(journal + MissingTxs(journal, b, from, to, rows), key)
       <==> Has(journal, key) || exists i :: 0 <= i < |rows| && ChargeKey(b, from, to, rows[i]) == key
  {
    HasJoin(journal, MissingTxs(journal, b, from, to, rows), key);
    HasOnlyMissing(journal, b, from, to, rows, key);
  }

  lemma HasJoin(x: seq<Tx>, y: seq<Tx>, key: Key)
    ensures Has(x + y, key) <==> Has(x, key) || Has(y, key)
  {
    if Has(x, key) { var i :| 0 <= i < |x| && x[i].key == key; assert (x + y)[i].key == key; }
    if Has(y, key) { var i :| 0 <= i < |y| && y[i].key == key; assert (x + y)[|x| + i].key == key; }
  }

  lemma {:induction false} HasOnlyMissing(journal: seq<Tx>, b: nat, from: int, to: int, rows: seq<Charge>, key: Key)
    ensures Has(journal, key) || Has(MissingTxs(journal, b, from, to, rows), key)
       <==> Has(journal, key) || exists i :: 0 <= i < |rows| && ChargeKey(b, from, to, rows[i]) == key
  {
    if rows != [] {
      var rest := rows[1..];
      HasOnlyMissing(journal, b, from, to, rest, key);
      var first := if Has(journal, ChargeKey(b, from, to, rows[0])) then [] else [ChargeTx(b, from, to, rows[0])];
      HasJoin(first, MissingTxs(journal, b, from, to, rest), key);
      if i :| 0 <= i < |rest| && ChargeKey(b, from, to, rest[i]) == key { assert rows[i + 1] == rest[i]; }
      if i :| 0 <= i < |rows| && ChargeKey(b, from, to, rows[i]) == key {
        if i > 0 { assert rest[i - 1] == rows[i]; } else if !Has(journal, key) { assert first[0].key == key; }
      }
    }
  }

  /** What is on file after a reading: what was, and for this pair the levels it got through. */
  lemma FiledBy(s: Shop, b: nat, x: nat, from: int, to: int, c: nat)
    requires Bound(s, b)
    ensures OnFile(Observe(s, b, x).0.books.journal, b, from, to, c)
       <==> OnFile(s.books.journal, b, from, to, c)
            || (from == Mark(s, b) && to == x && exists i :: 0 <= i < Reach(s, b, x) && ChainOf(s, b)[i].child == c)
  {
    hide Observe, Bound, Reach, Charges, MissingTxs, ChainOf;
    ReadingFiles(s, b, x);
    ChargesLink(s, b, x);
    var rows, n := Charges(s, b, x), Reach(s, b, x);
    var key := UsageKey(b, from, to, c);
    HasMissing(s.books.journal, b, Mark(s, b), x, rows[..n], key);
    if i :| 0 <= i < n && rows[..n][i].child == c { assert rows[i].child == ChainOf(s, b)[i].child; }
    if from == Mark(s, b) && to == x {
      if i :| 0 <= i < n && ChainOf(s, b)[i].child == c {
        assert ChargeKey(b, Mark(s, b), x, rows[..n][i]) == key;
      }
    }
  }

  lemma ChainDistinct(s: Shop, b: nat)
    requires Bound(s, b)
    ensures forall i, j :: 0 <= i < j < |ChainOf(s, b)| ==> ChainOf(s, b)[i].child != ChainOf(s, b)[j].child
  {
    hide Consistent, Covered, MeterOk;
    ChainLinks(s.tree, s.bindings[b].org);
  }

  /** The levels of a pair on file are the first ones of the chain, and all of them if the pair was accepted. */
  ghost predicate PairOk(s: Shop, b: nat, from: int, to: int) {
    && (forall c: nat :: OnFile(s.books.journal, b, from, to, c) ==> from < to && OnChain(ChainOf(s, b), c))
    && (forall i, j :: 0 <= i < j < |ChainOf(s, b)| && OnFile(s.books.journal, b, from, to, ChainOf(s, b)[j].child)
          ==> OnFile(s.books.journal, b, from, to, ChainOf(s, b)[i].child))
    && (AcceptedSpan(MeterOf(s, b).rows, from, to) ==>
          forall i :: 0 <= i < |ChainOf(s, b)| ==> OnFile(s.books.journal, b, from, to, ChainOf(s, b)[i].child))
  }

  /** The usage charges of a binding on file: for every pair of readings a prefix of the chain, for an accepted one all of it. */
  ghost predicate Prefixed(s: Shop, b: nat) {
    Bound(s, b) && forall from, to :: PairOk(s, b, from, to)
  }

  lemma PairKept(s: Shop, b: nat, x: nat, from: int, to: int)
    requires Bound(s, b) && PairOk(s, b, from, to)
    ensures PairOk(Observe(s, b, x).0, b, from, to)
  {
    hide Observe, Bound, Reach, ChainOf, AcceptedSpan, OnFile;
    var after, es := Observe(s, b, x).0, ChainOf(s, b);
    assert ChainOf(after, b) == es by { ReadingKeepsBound(s, b, x); }
    SpansMove(s, b, x, from, to) by { BoundIn(s, b); }
    ReadingFiles(s, b, x);
    ChargesLink(s, b, x);
    ChainDistinct(s, b);
    forall c: nat
      ensures OnFile(after.books.journal, b, from, to, c)
         <==> OnFile(s.books.journal, b, from, to, c)
              || (from == Mark(s, b) && to == x && exists i :: 0 <= i < Reach(s, b, x) && es[i].child == c)
    {
      FiledBy(s, b, x, from, to, c);
    }
    forall i, j | 0 <= i < j < |es| && OnFile(after.books.journal, b, from, to, es[j].child)
      ensures OnFile(after.books.journal, b, from, to, es[i].child)
    {}
  }

  lemma BoundIn(s: Shop, b: nat)
    requires Bound(s, b)
    ensures b in s.bindings
  {}

  /** Every reading, kept whatever became of it, leaves every pair on file for a prefix of the chain. */
  lemma ReadingKeepsPrefixes(s: Shop, b: nat, x: nat)
    requires Prefixed(s, b)
    ensures Prefixed(Observe(s, b, x).0, b)
  {
    hide Observe, Bound, PairOk;
    ReadingKeepsBound(s, b, x);
    forall from, to ensures PairOk(Observe(s, b, x).0, b, from, to) {
      PairKept(s, b, x, from, to);
    }
  }

  // ---- runs ----

  /** No usage charge of this binding. */
  predicate Uncharged(journal: seq<Tx>, b: nat) {
    forall i :: 0 <= i < |journal| ==> !(journal[i].key.UsageKey? && journal[i].key.binding == b)
  }

  /** Whatever else the system does: other bindings, funding, new organizations, status changes, a reading rolled back. */
  ghost predicate Elsewhere(s: Shop, s': Shop, b: nat) {
    && Bound(s', b) && b in s.bindings && s'.bindings[b] == s.bindings[b] && MeterOf(s', b) == MeterOf(s, b)
    && ChainOf(s', b) == ChainOf(s, b)
    && s.books.journal <= s'.books.journal
    && Uncharged(s'.books.journal[|s.books.journal|..], b)
  }

  /** One step: a reading of the binding that is kept, settled or interrupted, or something else. */
  ghost predicate Moves(s: Shop, read: Option<nat>, s': Shop, b: nat) {
    match read
    case Some(x) => s' == Observe(s, b, x).0
    case None => Elsewhere(s, s', b)
  }

  /** A binding nobody has read or charged yet. */
  ghost predicate Blank(s: Shop, b: nat) {
    Bound(s, b) && MeterOf(s, b) == Meter(None, []) && Uncharged(s.books.journal, b)
  }

  /** A run from a new binding on; `kept` are the readings that were kept. */
  ghost predicate UsageRun(trace: seq<Shop>, kept: seq<Option<nat>>, b: nat) {
    && |trace| == |kept| + 1 && Blank(trace[0], b)
    && forall i :: 0 <= i < |kept| ==> Moves(trace[i], kept[i], trace[i + 1], b)
  }

  lemma ElsewhereFiles(s: Shop, s': Shop, b: nat, from: int, to: int, c: nat)
    requires Elsewhere(s, s', b)
    ensures OnFile(s'.books.journal, b, from, to, c) <==> OnFile(s.books.journal, b, from, to, c)
  {
    hide Bound;
    var rest := s'.books.journal[|s.books.journal|..];
    assert s'.books.journal == s.books.journal + rest;
    HasJoin(s.books.journal, rest, UsageKey(b, from, to, c));
  }

  lemma ElsewhereKeepsPrefixes(s: Shop, s': Shop, b: nat)
    requires Prefixed(s, b) && Elsewhere(s, s', b)
    ensures Prefixed(s', b)
  {
    hide Bound, OnFile, AcceptedSpan, Uncharged;
    forall from, to ensures PairOk(s', b, from, to) {
      assert PairOk(s, b, from, to);
      forall c: nat ensures OnFile(s'.books.journal, b, from, to, c) <==> OnFile(s.books.journal, b, from, to, c) {
        ElsewhereFiles(s, s', b, from, to, c);
      }
    }
  }

  lemma BlankIsPrefixed(s: Shop, b: nat)
    requires Blank(s, b)
    ensures Prefixed(s, b)
  {
    hide Bound;
    forall from, to ensures PairOk(s, b, from, to) {
      forall c: nat ensures !OnFile(s.books.journal, b, from, to, c) {}
    }
  }

  /**
   In every state of every run, batches that keep interrupted settlements included: for every pair of
   readings the levels charged are the first ones of the chain, and all of them once the pair is accepted.
   */
  lemma {:induction false} RunPrefixed(trace: seq<Shop>, kept: seq<Option<nat>>, b: nat, k: nat)
    requires UsageRun(trace, kept, b) && k < |trace|
    ensures Prefixed(trace[k], b)
  {
    hide Blank, Observe, Elsewhere, Prefixed;
    if k == 0 {
      BlankIsPrefixed(trace[0], b);
    } else {
      RunPrefixed(trace, kept, b, k - 1);
      assert Moves(trace[k - 1], kept[k - 1], trace[k], b);
      if kept[k - 1].Some? {
        ReadingKeepsPrefixes(trace[k - 1], b, kept[k - 1].value);
      } else {
        ElsewhereKeepsPrefixes(trace[k - 1], trace[k], b);
      }
    }
  }

  lemma MovesKeepChain(s: Shop, read: Option<nat>, s': Shop, b: nat)
    requires Bound(s, b) && Moves(s, read, s', b)
    ensures ChainOf(s', b) == ChainOf(s, b)
  {
    hide Bound, Observe;
    if read.Some? { ReadingKeepsBound(s, b, read.value); }
  }

  lemma PrefixedIsBound(s: Shop, b: nat)
    requires Prefixed(s, b)
    ensures Bound(s, b)
  {}

  lemma {:induction false} RunChain(trace: seq<Shop>, kept: seq<Option<nat>>, b: nat, j: nat, k: nat)
    requires UsageRun(trace, kept, b) && j <= k < |trace|
    ensures ChainOf(trace[k], b) == ChainOf(trace[j], b)
    decreases k
  {
    hide Blank, Observe, Elsewhere, Prefixed, Bound, Moves;
    if j < k {
      RunChain(trace, kept, b, j, k - 1);
      RunPrefixed(trace, kept, b, k - 1);
      PrefixedIsBound(trace[k - 1], b);
      MovesKeepChain(trace[k - 1], kept[k - 1], trace[k], b);
    }
  }

  /**
   In every run the checkpoint moves down exactly with a kept reading below it that is the last of
   RESET_CONFIRM_READINGS lower ones in a row, and while a reading is not above it no money moves.
   */
  lemma MarkFallsIffConfirmed(trace: seq<Shop>, kept: seq<Option<nat>>, b: nat, k: nat)
    requires UsageRun(trace, kept, b) && k < |kept| && MeterOf(trace[k], b).checkpoint.Some?
    ensures MeterOf(trace[k + 1], b).checkpoint.Some?
    ensures Mark(trace[k + 1], b) < Mark(trace[k], b)
       <==> kept[k].Some? && kept[k].value < Mark(trace[k], b) && Lower(MeterOf(trace[k], b).rows) + 1 == RESET_CONFIRM_READINGS
    ensures kept[k].Some? && !Above(trace[k], b, kept[k].value) ==> trace[k + 1].books == trace[k].books
  {
    hide Blank, Prefixed, Observe, Lower, TreeOk, Consistent, Covered;
    RunPrefixed(trace, kept, b, k);
    PrefixedIsBound(trace[k], b);
    assert Moves(trace[k], kept[k], trace[k + 1], b);
    if kept[k].Some? {
      MeterMoves(trace[k], b, kept[k].value);
      if !Above(trace[k], b, kept[k].value) { BelowUnfolds(trace[k], b, kept[k].value); }
    }
  }

  // ---- what an accepted growth is charged ----

  /** How many levels of the chain, from the leaf on, are on file for a pair of readings. */
  function LevelsOnFile(journal: seq<Tx>, b: nat, from: int, to: int, es: seq<Edge>): (n: nat)
    ensures n <= |es|
  {
    if es == [] || !OnFile(journal, b, from, to, es[0].child) then 0 else 1 + LevelsOnFile(journal, b, from, to, es[1..])
  }

  lemma {:induction false} LevelsIff(journal: seq<Tx>, b: nat, from: int, to: int, es: seq<Edge>, i: nat)
    requires forall j, k :: 0 <= j < k < |es| && OnFile(journal, b, from, to, es[k].child) ==> OnFile(journal, b, from, to, es[j].child)
    requires i < |es|
    ensures OnFile(journal, b, from, to, es[i].child) <==> i < LevelsOnFile(journal, b, from, to, es)
  {
    hide OnFile;
    if i > 0 && OnFile(journal, b, from, to, es[0].child) {
      forall j, k | 0 <= j < k < |es[1..]| && OnFile(journal, b, from, to, es[1..][k].child)
        ensures OnFile(journal, b, from, to, es[1..][j].child)
      {
        assert es[1..][k] == es[k + 1] && es[1..][j] == es[j + 1];
      }
      LevelsIff(journal, b, from, to, es[1..], i - 1);
    }
  }

  /** The levels this pair of readings, from the checkpoint to x, has been charged on before. */
  function PaidBefore(s: Shop, b: nat, x: nat): nat {
    LevelsOnFile(s.books.journal, b, Mark(s, b), x, ChainOf(s, b))
  }

  lemma BegunBefore(s: Shop, b: nat, x: nat)
    requires Prefixed(s, b) && Charges(s, b, x) != []
    ensures Begun(s.books.journal, b, Mark(s, b), x, Charges(s, b, x), PaidBefore(s, b, x))
  {
    hide Bound, AcceptedSpan, OnChain, Charges;
    assert PairOk(s, b, Mark(s, b), x);
    PrefixedIsBound(s, b);
    ChargesLink(s, b, x);
    forall i | 0 <= i < |Charges(s, b, x)|
      ensures Has(s.books.journal, ChargeKey(b, Mark(s, b), x, Charges(s, b, x)[i])) <==> i < PaidBefore(s, b, x)
    {
      LevelsIff(s.books.journal, b, Mark(s, b), x, ChainOf(s, b), i);
    }
  }

  /**
   Usage keys carry no reset epoch, and an interrupted settlement leaves some of them behind. An accepted
   growth is charged on exactly the levels that this pair of readings has not been charged on before:
   on none at all if it was accepted before, on every level if no settlement of it was ever begun.
   */
  lemma ChargedUnlessRepeated(s: Shop, b: nat, x: nat)
    requires Prefixed(s, b) && Accepts(s, b, x)
    ensures PaidBefore(s, b, x) <= |Charges(s, b, x)| == |ChainOf(s, b)|
    ensures Observe(s, b, x).0.books.journal
         == s.books.journal + ChargeTxs(b, Mark(s, b), x, Charges(s, b, x)[PaidBefore(s, b, x)..])
    ensures AcceptedSpan(MeterOf(s, b).rows, Mark(s, b), x) ==> Observe(s, b, x).0.books.journal == s.books.journal
  {
    hide Bound, Accepts, Charges, PairOk, Observe, Reach;
    PrefixedIsBound(s, b);
    ReadingFiles(s, b, x);
    ChargesLink(s, b, x);
    var rows := Charges(s, b, x);
    assert rows[..|rows|] == rows;
    if rows != [] {
      BegunBefore(s, b, x);
      MissingOfBegun(s.books.journal, b, Mark(s, b), x, rows, PaidBefore(s, b, x));
      if AcceptedSpan(MeterOf(s, b).rows, Mark(s, b), x) {
        AllPaidBefore(s, b, x);
        assert rows[|rows|..] == [];
      }
    }
  }

  lemma AllPaidBefore(s: Shop, b: nat, x: nat)
    requires Prefixed(s, b) && AcceptedSpan(MeterOf(s, b).rows, Mark(s, b), x)
    ensures PaidBefore(s, b, x) == |ChainOf(s, b)|
  {
    hide Bound, AcceptedSpan, OnFile, OnChain;
    assert PairOk(s, b, Mark(s, b), x);
    var n := |ChainOf(s, b)|;
    if n > 0 { LevelsIff(s.books.journal, b, Mark(s, b), x, ChainOf(s, b), n - 1); }
  }

  /** No baseline but the first observation. */
  ghost predicate FirstEpoch(rows: seq<UsageRow>) {
    forall k :: 0 < k < |rows| ==> !Rebases(rows[k])
  }

  /** Before the first reset no pair of readings can be accepted twice. */
  lemma FirstEpochNeverRepeats(s: Shop, b: nat, x: nat)
    requires Bound(s, b) && Above(s, b, x) && FirstEpoch(MeterOf(s, b).rows)
    ensures !AcceptedSpan(MeterOf(s, b).rows, Mark(s, b), x)
  {
    hide TreeOk, Consistent, Covered;
    SpansEndBefore(MeterOf(s, b), x);
  }

  lemma SpansEndBefore(m: Meter, x: int)
    requires MeterOk(m) && m.checkpoint.Some? && FirstEpoch(m.rows) && x > m.checkpoint.value.lifetime
    ensures !AcceptedSpan(m.rows, m.checkpoint.value.lifetime, x)
  {
    var from := m.checkpoint.value.lifetime;
    if k :| 0 <= k < |m.rows| && m.rows[k] == UsageRow(Accepted, x, x - from) {
      RowIsSpan(m.rows, k);
      DeltasAddUp(Base(m.rows), from, Spans(m.rows));
    }
  }

  /** Without a later baseline an accepted row is one of the current intervals. */
  lemma {:induction false} RowIsSpan(rows: seq<UsageRow>, k: nat)
    requires k < |rows| && rows[k].status == Accepted
    requires forall j :: k <= j < |rows| ==> !Rebases(rows[j])
    ensures (rows[k].lifetime - rows[k].delta, rows[k].lifetime) in Spans(rows)
  {
    var n := |rows| - 1;
    if k < n { RowIsSpan(rows[..n], k); }
  }

  // ---- when a growth settles ----

  /**
   A growth settles if and only if it can be priced, the levels that have paid for this pair of readings
   before still owe something, and the others can pay; then exactly the charges of the others move.
   Otherwise, with a rollback, nothing changes at all.
   */
  lemma GrowthSettlesIff(s: Shop, b: nat, x: nat)
    requires Prefixed(s, b) && Above(s, b, x)
    ensures var plan, m := PlanFor(s, s.bindings[b], x - Mark(s, b)), PaidBefore(s, b, x);
            && (plan.Planned? ==> m <= |plan.charges|)
            && var settles := plan.Planned? && (forall i :: 0 <= i < m ==> plan.charges[i].amount >= 1)
                              && forall i :: 0 <= i < |plan.charges| - m ==> LevelPays(s.books, s.tree.orgs, plan.charges[m..], i);
            && Observe(s, b, x).1.Settled? == settles
            && (settles ==> forall o ::
                  Balance(UsageOnce(s, b, x).books, o) == Balance(s.books, o) + Settlement.Moved(plan.charges[m..], o))
            && (!settles ==> UsageOnce(s, b, x) == s)
  {
    hide Observe, Settle, PlanFor, LevelPays, Settlement.Moved, Balance, Bound, PairOk, Linked, OnFile, ChargeTxs;
    PrefixedIsBound(s, b);
    AboveUnfolds(s, b, x);
    ChargesLink(s, b, x);
    var plan, m := PlanFor(s, s.bindings[b], x - Mark(s, b)), PaidBefore(s, b, x);
    if plan.Planned? {
      LinksOf(s, b, x);
      if plan.charges != [] {
        BegunBefore(s, b, x);
      }
      ResumedSettlesIff(s.books, s.tree.orgs, b, Mark(s, b), x, plan.charges, 0, m);
    }
  }

  lemma LinksOf(s: Shop, b: nat, x: nat)
    requires Bound(s, b) && Above(s, b, x) && PlanFor(s, s.bindings[b], x - Mark(s, b)).Planned?
    ensures |PlanFor(s, s.bindings[b], x - Mark(s, b)).charges| == |ChainOf(s, b)|
  {
    PlanLinks(s, b, x - Mark(s, b), PlanFor(s, s.bindings[b], x - Mark(s, b)).charges);
  }

  // ---- how often a level is charged ----

  /** How many charges of `child` start at `from`. */
  function ChargesFrom(journal: seq<Tx>, b: nat, from: int, child: nat): nat {
    if journal == [] then 0
    else
      var key := journal[|journal| - 1].key;
      ChargesFrom(journal[..|journal| - 1], b, from, child)
      + (if key.UsageKey? && key.binding == b && key.from == from && key.child == child then 1 else 0)
  }

  lemma {:induction false} ChargesJoin(x: seq<Tx>, y: seq<Tx>, b: nat, from: int, child: nat)
    ensures ChargesFrom(x + y, b, from, child) == ChargesFrom(x, b, from, child) + ChargesFrom(y, b, from, child)
  {
    if y == [] {
      assert x + y == x;
    } else {
      var n := |y| - 1;
      assert (x + y)[..|x| + n] == x + y[..n];
      ChargesJoin(x, y[..n], b, from, child);
    }
  }

  /** The readings at which `child` was charged from the checkpoint `from`. */
  function PaidReadings(journal: seq<Tx>, b: nat, from: int, child: nat): set<int> {
    if journal == [] then {}
    else
      var key := journal[|journal| - 1].key;
      PaidReadings(journal[..|journal| - 1], b, from, child)
      + (if key.UsageKey? && key.binding == b && key.from == from && key.child == child then {key.to} else {})
  }

  lemma {:induction false} PaidReadingsIff(journal: seq<Tx>, b: nat, from: int, y: int, child: nat)
    ensures y in PaidReadings(journal, b, from, child) <==> OnFile(journal, b, from, y, child)
  {
    if journal != [] {
      var n := |journal| - 1;
      PaidReadingsIff(journal[..n], b, from, y, child);
      assert journal == journal[..n] + [journal[n]];
      HasJoin(journal[..n], [journal[n]], UsageKey(b, from, y, child));
      assert Has([journal[n]], UsageKey(b, from, y, child)) <==> journal[n].key == UsageKey(b, from, y, child) by {
        assert [journal[n]][0] == journal[n];
      }
    }
  }

  predicate UniqueKeys(journal: seq<Tx>) {
    forall i, j :: 0 <= i < j < |journal| ==> journal[i].key != journal[j].key
  }

  /** The charges of a level from a checkpoint number exactly the distinct readings at which it paid. */
  lemma {:induction false} ChargesAreReadings(journal: seq<Tx>, b: nat, from: int, child: nat)
    requires UniqueKeys(journal)
    ensures ChargesFrom(journal, b, from, child) == |PaidReadings(journal, b, from, child)|
  {
    if journal != [] {
      var n := |journal| - 1;
      ChargesAreReadings(journal[..n], b, from, child);
      var key := journal[n].key;
      if key.UsageKey? {
        PaidReadingsIff(journal[..n], b, from, key.to, child);
        assert key == UsageKey(key.binding, key.from, key.to, key.child);
      }
    }
  }

  /** A kept reading of y from this checkpoint got through this level. */
  predicate PaysAt(s: Shop, read: Option<nat>, b: nat, from: int, y: int, level: nat) {
    read.Some? && read.value == y && Mark(s, b) == from && level < Reach(s, b, read.value)
  }

  lemma MovesFile(s: Shop, read: Option<nat>, s': Shop, b: nat, from: int, y: int, level: nat)
    requires Bound(s, b) && Moves(s, read, s', b) && level < |ChainOf(s, b)|
    ensures var c := ChainOf(s, b)[level].child;
            OnFile(s'.books.journal, b, from, y, c) <==> OnFile(s.books.journal, b, from, y, c) || PaysAt(s, read, b, from, y, level)
  {
    hide Observe, Bound, OnFile, Reach, ChainOf;
    var c := ChainOf(s, b)[level].child;
    match read {
      case Some(x) =>
        FiledBy(s, b, x, from, y, c);
        ChainDistinct(s, b);
        ChargesLink(s, b, x);
      case None => ElsewhereFiles(s, s', b, from, y, c);
    }
  }

  /** A level is charged for a pair of readings since some time exactly when a kept reading of it has got through the level since. */
  lemma {:induction false} FiledSince(trace: seq<Shop>, kept: seq<Option<nat>>, b: nat, j: nat, k: nat, from: int, y: int, level: nat)
    requires UsageRun(trace, kept, b) && j <= k < |trace| && level < |ChainOf(trace[j], b)|
    ensures var c := ChainOf(trace[j], b)[level].child;
            OnFile(trace[k].books.journal, b, from, y, c)
            == (OnFile(trace[j].books.journal, b, from, y, c) || exists t :: j <= t < k && PaysAt(trace[t], kept[t], b, from, y, level))
    decreases k
  {
    hide Blank, PaysAt, OnFile, Moves, Prefixed, ChainOf, Bound;
    if j < k {
      FiledSince(trace, kept, b, j, k - 1, from, y, level);
      RunPrefixed(trace, kept, b, k - 1);
      PrefixedIsBound(trace[k - 1], b);
      RunChain(trace, kept, b, j, k - 1);
      MovesFile(trace[k - 1], kept[k - 1], trace[k], b, from, y, level);
    }
  }

  lemma UniqueOf(s: Shop, b: nat)
    requires Prefixed(s, b)
    ensures UniqueKeys(s.books.journal)
  {}

  /** What a level was charged since some time: once for every reading at which it has paid since. */
  lemma ChargedSince(trace: seq<Shop>, kept: seq<Option<nat>>, b: nat, j: nat, k: nat, from: int, level: nat)
    requires UsageRun(trace, kept, b) && j <= k < |trace| && level < |ChainOf(trace[j], b)|
    ensures var c := ChainOf(trace[j], b)[level].child;
            var early, now := trace[j].books.journal, trace[k].books.journal;
            ChargesFrom(now, b, from, c) - ChargesFrom(early, b, from, c)
              == |PaidReadings(now, b, from, c) - PaidReadings(early, b, from, c)|
  {
    hide UsageRun, Prefixed, UniqueKeys, ChargesFrom, PaidReadings, PaysAt, OnFile;
    var c := ChainOf(trace[j], b)[level].child;
    var early, now := trace[j].books.journal, trace[k].books.journal;
    LengthOfRun(trace, kept, b);
    RunPrefixed(trace, kept, b, j);
    RunPrefixed(trace, kept, b, k);
    UniqueOf(trace[j], b);
    UniqueOf(trace[k], b);
    ChargesAreReadings(early, b, from, c);
    ChargesAreReadings(now, b, from, c);
    forall y | y in PaidReadings(early, b, from, c) ensures y in PaidReadings(now, b, from, c) {
      PaidReadingsIff(early, b, from, y, c);
      PaidReadingsIff(now, b, from, y, c);
      FiledSince(trace, kept, b, j, k, from, y, level);
    }
  }

  lemma LengthOfRun(trace: seq<Shop>, kept: seq<Option<nat>>, b: nat)
    requires UsageRun(trace, kept, b)
    ensures |trace| == |kept| + 1
  {}

  /** The kept reading at t has got through this level from this checkpoint, for a pair of readings not charged before j. */
  predicate PaysAnew(trace: seq<Shop>, kept: seq<Option<nat>>, b: nat, j: nat, t: nat, from: int, level: nat)
    requires j < |trace| && t < |kept| && |trace| == |kept| + 1 && level < |ChainOf(trace[j], b)|
  {
    && kept[t].Some? && PaysAt(trace[t], kept[t], b, from, kept[t].value, level)
    && !OnFile(trace[j].books.journal, b, from, kept[t].value, ChainOf(trace[j], b)[level].child)
  }

  lemma OnlyMember<T>(xs: set<T>, x: T)
    requires x in xs
    ensures |xs| >= 1 && (|xs| == 1 <==> forall y :: y in xs ==> y == x)
  {
    assert xs == (xs - {x}) + {x};
    if |xs - {x}| == 0 {
      assert xs == {x};
    } else {
      var y :| y in xs - {x};
      assert |xs| == |xs - {x}| + 1;
    }
  }

  /**
   After any number of interruptions and anything else, an accepted reading leaves a level charged exactly
   once since j for the bytes from its checkpoint if and only if no other reading has got through that
   level from the same checkpoint since; otherwise the level has been charged again for each of them.
   */
  lemma ChargedOnceIffSameReading(trace: seq<Shop>, kept: seq<Option<nat>>, b: nat, j: nat, k: nat, x: nat, level: nat)
    requires UsageRun(trace, kept, b) && j <= k < |kept| && level < |ChainOf(trace[j], b)|
    requires kept[k] == Some(x) && Accepts(trace[k], b, x)
    requires !OnFile(trace[j].books.journal, b, Mark(trace[k], b), x, ChainOf(trace[j], b)[level].child)
    ensures var c, from := ChainOf(trace[j], b)[level].child, Mark(trace[k], b);
            var charged := ChargesFrom(trace[k + 1].books.journal, b, from, c) - ChargesFrom(trace[j].books.journal, b, from, c);
            && charged >= 1
            && (charged == 1 <==>
                  forall t :: j <= t <= k && PaysAnew(trace, kept, b, j, t, from, level) ==> kept[t].value == x)
  {
    hide Prefixed, ChargesFrom, PaidReadings, OnFile, Moves, Blank, ChainOf, Reach, Bound, Accepts;
    var c, from := ChainOf(trace[j], b)[level].child, Mark(trace[k], b);
    var early, now := trace[j].books.journal, trace[k + 1].books.journal;
    ChargedSince(trace, kept, b, j, k + 1, from, level);
    var paid := PaidReadings(now, b, from, c) - PaidReadings(early, b, from, c);
    assert PaysAt(trace[k], kept[k], b, from, x, level) by { LastPays(trace, kept, b, j, k, x, level); }
    forall y: int
      ensures y in paid <==> exists t :: j <= t <= k && PaysAnew(trace, kept, b, j, t, from, level) && kept[t].value == y
    {
      PaidReadingsIff(early, b, from, y, c);
      PaidReadingsIff(now, b, from, y, c);
      FiledSince(trace, kept, b, j, k + 1, from, y, level);
      if t :| j <= t < k + 1 && PaysAt(trace[t], kept[t], b, from, y, level) {
        assert !OnFile(early, b, from, y, c) ==> PaysAnew(trace, kept, b, j, t, from, level);
      }
    }
    assert PaysAnew(trace, kept, b, j, k, from, level);
    assert x in paid;
    OnlyMember(paid, x);
    if |paid| == 1 {
      forall t | j <= t <= k && PaysAnew(trace, kept, b, j, t, from, level) ensures kept[t].value == x {
        assert kept[t].value in paid;
      }
    } else {
      var y :| y in paid && y != x;
      var t :| j <= t <= k && PaysAnew(trace, kept, b, j, t, from, level) && kept[t].value == y;
    }
  }

  lemma LastPays(trace: seq<Shop>, kept: seq<Option<nat>>, b: nat, j: nat, k: nat, x: nat, level: nat)
    requires UsageRun(trace, kept, b) && j <= k < |kept| && level < |ChainOf(trace[j], b)|
    requires Accepts(trace[k], b, x)
    ensures level < Reach(trace[k], b, x)
  {
    hide Prefixed, Observe, Moves, Blank, ChainOf, Reach, Bound, Accepts, Charges, MissingTxs;
    RunPrefixed(trace, kept, b, k);
    PrefixedIsBound(trace[k], b);
    RunChain(trace, kept, b, j, k);
    ReadingFiles(trace[k], b, x);
  }

  /** Interrupted as often as you like, the same reading in the end leaves every level charged once. */
  lemma SameReadingCompletes(trace: seq<Shop>, kept: seq<Option<nat>>, b: nat, j: nat, k: nat, x: nat, level: nat)
    requires UsageRun(trace, kept, b) && j <= k < |kept| && level < |ChainOf(trace[j], b)|
    requires kept[k] == Some(x) && Accepts(trace[k], b, x)
    requires !OnFile(trace[j].books.journal, b, Mark(trace[k], b), x, ChainOf(trace[j], b)[level].child)
    requires forall t :: j <= t <= k && kept[t].Some? && Mark(trace[t], b) == Mark(trace[k], b) && kept[t].value > Mark(trace[k], b)
               ==> kept[t].value == x
    ensures var c, from := ChainOf(trace[j], b)[level].child, Mark(trace[k], b);
            ChargesFrom(trace[k + 1].books.journal, b, from, c) == ChargesFrom(trace[j].books.journal, b, from, c) + 1
  {
    hide UsageRun, Prefixed, ChargesFrom, OnFile, ChainOf, Bound, Accepts;
    LengthOfRun(trace, kept, b);
    ChargedOnceIffSameReading(trace, kept, b, j, k, x, level);
    forall t | j <= t <= k && PaysAnew(trace, kept, b, j, t, Mark(trace[k], b), level) ensures kept[t].value == x {
      ReachAbove(trace[t], b, kept[t].value);
    }
  }

  lemma ReachAbove(s: Shop, b: nat, x: nat)
    ensures Reach(s, b, x) > 0 ==> Above(s, b, x)
  {}
}
