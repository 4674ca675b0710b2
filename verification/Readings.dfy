/**
 What a reading answers and notes (src/control_plane/app.py:324-352), and which batches survive
 (src/control_plane/api.py:92-102).
 */
module Readings {
  import opened Options
  import opened Ledger
  import opened Pricing
  import opened Resellers
  import opened Settlement
  import opened Metering
  import opened Epochs

  // ---- where the checkpoint goes ----

  lemma CheckpointIs(s: Shop, b: nat)
    requires Bound(s, b) && MeterOf(s, b).checkpoint.Some?
    ensures MeterOf(s, b).checkpoint == Some(Checkpoint(Mark(s, b), Lower(MeterOf(s, b).rows)))
  {
    hide TreeOk, Consistent, Covered;
  }

  lemma BaseAfter(rows: seq<UsageRow>, x: int)
    ensures Base(rows + [UsageRow(Baseline, x, 0)]) == x && Lower(rows + [UsageRow(Baseline, x, 0)]) == 0
    ensures Lower(rows + [UsageRow(Regression, x, 0)]) == Lower(rows) + 1
    ensures Base(rows + [UsageRow(Regression, x, 0)]) == Base(rows)
    ensures var reset := rows + [UsageRow(Regression, x, 0), UsageRow(ResetBaseline, x, 0)];
            Base(reset) == x && Lower(reset) == 0
  {
    var low := UsageRow(Regression, x, 0);
    RowAdded(rows, UsageRow(Baseline, x, 0));
    RowAdded(rows, low);
    RowAdded(rows + [low], UsageRow(ResetBaseline, x, 0));
    assert rows + [low] + [UsageRow(ResetBaseline, x, 0)] == rows + [low, UsageRow(ResetBaseline, x, 0)];
  }

  /**
   What a reading of x makes of a meter. The first one becomes checkpoint and baseline. A lower one is noted
   and changes nothing else, unless it is the last of RESET_CONFIRM_READINGS lower ones in a row: then x
   itself becomes the checkpoint and the new baseline, and counting starts again. Any other becomes the
   checkpoint if it is accepted, with the growth it is charged for, or leaves the meter alone.
   */
  predicate Noted(m: Meter, x: nat, accepted: bool, n: Meter) {
    if m.checkpoint == None then
      n == Meter(Some(Checkpoint(x, 0)), [UsageRow(Baseline, x, 0)])
    else
      var mark, low := m.checkpoint.value.lifetime, Lower(m.rows);
      if x < mark && low + 1 == RESET_CONFIRM_READINGS then
        && n.checkpoint == Some(Checkpoint(x, 0)) && Base(n.rows) == x && Lower(n.rows) == 0
        && n.rows == m.rows + [UsageRow(Regression, x, 0), UsageRow(ResetBaseline, x, 0)]
      else if x < mark then
        && n.checkpoint == Some(Checkpoint(mark, low + 1)) && low + 1 < RESET_CONFIRM_READINGS
        && Base(n.rows) == Base(m.rows) && Lower(n.rows) == low + 1
        && n.rows == m.rows + [UsageRow(Regression, x, 0)]
      else if accepted then
        && n.checkpoint == Some(Checkpoint(x, 0)) && Base(n.rows) == Base(m.rows)
        && n.rows == m.rows + [UsageRow(Accepted, x, x - mark)]
      else n == m
  }

  lemma ReadingNotes(s: Shop, b: nat, x: nat)
    requires Bound(s, b)
    ensures Noted(MeterOf(s, b), x, Observe(s, b, x).1.Settled?, MeterOf(Observe(s, b, x).0, b))
  {
    hide Observe, TreeOk, Consistent, Covered, Lower, Base;
    var rows := MeterOf(s, b).rows;
    MeterMoves(s, b, x);
    BaseAfter(rows, x);
    RowAdded(rows, UsageRow(Accepted, x, x - Mark(s, b)));
    if MeterOf(s, b).checkpoint.Some? {
      CheckpointIs(s, b);
      assert rows + [UsageRow(Regression, x, 0)] + [UsageRow(ResetBaseline, x, 0)]
          == rows + [UsageRow(Regression, x, 0), UsageRow(ResetBaseline, x, 0)];
    }
  }

  /** In every run every kept reading is noted like that. */
  lemma ReadingMoves(trace: seq<Shop>, kept: seq<Option<nat>>, b: nat, k: nat, x: nat)
    requires UsageRun(trace, kept, b) && k < |kept| && kept[k] == Some(x)
    ensures Noted(MeterOf(trace[k], b), x, Observe(trace[k], b, x).1.Settled?, MeterOf(trace[k + 1], b))
  {
    hide Blank, Prefixed, Observe, Bound, Noted;
    RunPrefixed(trace, kept, b, k);
    PrefixedIsBound(trace[k], b);
    assert Moves(trace[k], kept[k], trace[k + 1], b);
    ReadingNotes(trace[k], b, x);
  }

  lemma ElsewhereStays(trace: seq<Shop>, kept: seq<Option<nat>>, b: nat, k: nat)
    requires UsageRun(trace, kept, b) && k < |kept| && kept[k] == None
    ensures MeterOf(trace[k + 1], b) == MeterOf(trace[k], b)
  {
    hide Bound, ChainOf, Uncharged, Blank;
    assert Moves(trace[k], kept[k], trace[k + 1], b);
  }

  lemma UnreadAtFirst(trace: seq<Shop>, kept: seq<Option<nat>>, b: nat)
    requires UsageRun(trace, kept, b)
    ensures |trace| == |kept| + 1 && MeterOf(trace[0], b) == Meter(None, [])
  {
    hide Bound, Uncharged, Moves;
  }

  /** In every run the checkpoint is a reading that was kept: the last one to move it, since when it has stood. */
  lemma {:induction false} MarkWasRead(trace: seq<Shop>, kept: seq<Option<nat>>, b: nat, k: nat) returns (i: nat)
    requires UsageRun(trace, kept, b) && k < |trace| && MeterOf(trace[k], b).checkpoint.Some?
    ensures i < k && i < |kept| && kept[i] == Some(Mark(trace[k], b))
    ensures forall j :: i < j <= k ==> MeterOf(trace[j], b).checkpoint.Some? && Mark(trace[j], b) == Mark(trace[k], b)
    decreases k
  {
    hide UsageRun, Observe, Base, Lower;
    UnreadAtFirst(trace, kept, b);
    var j := k - 1;
    if kept[j].Some? { ReadingMoves(trace, kept, b, j, kept[j].value); } else { ElsewhereStays(trace, kept, b, j); }
    if MeterOf(trace[j], b).checkpoint.Some? && Mark(trace[j], b) == Mark(trace[k], b) {
      i := MarkWasRead(trace, kept, b, j);
    } else {
      i := j;
    }
  }

  // ---- what a reading answers ----

  /** The reason for which a growth is refused at a level, as the caller hears it. */
  function Refusing(why: Refusal, charges: seq<Charge>, n: nat): Observation
    requires n <= |charges|
  {
    if why == NoCredit then Hold(Total(charges[..n])) else Failed(Declined(why))
  }

  /** A reading that is not above the checkpoint is settled for nothing. */
  lemma LowReadingAnswers(s: Shop, b: nat, x: nat)
    requires Bound(s, b) && !Above(s, b, x)
    ensures Observe(s, b, x).1 == Settled([]) && Observe(s, b, x).0.books == s.books
    ensures UsageOnce(s, b, x) == Observe(s, b, x).0
  {
    hide TreeOk, Consistent, Covered, MeterOk, Edges;
    BelowUnfolds(s, b, x);
    if MeterOf(s, b).checkpoint.Some? && x == Mark(s, b) {
      ChainThere(s, b);
    }
  }

  lemma ChainThere(s: Shop, b: nat)
    requires Bound(s, b)
    ensures Edges(s.tree, s.bindings[b].org) == Chain(ChainOf(s, b))
  {
    ChainLinks(s.tree, s.bindings[b].org);
  }

  /** The first level of the chain that cannot be priced fails like this. */
  predicate Unpriced(es: seq<Edge>, delta: int, coef: int, e: PriceError) {
    exists i :: 0 <= i < |es| && PriceUsage(delta, es[i].rate, coef) == Err(e)
                && forall j :: 0 <= j < i ==> PriceUsage(delta, es[j].rate, coef).Ok?
  }

  lemma PlannedIff(s: Shop, b: nat, x: nat)
    requires Bound(s, b) && Above(s, b, x)
    ensures var delta, coef := x - Mark(s, b), Coefficient(s.coefs, s.bindings[b].panel);
            var plan, charges := PlanFor(s, s.bindings[b], delta), Charges(s, b, x);
            if plan.NotPlanned? then plan.fault.BadPrice? && Unpriced(ChainOf(s, b), delta, coef, plan.fault.price)
            else
              && plan.charges == charges && |charges| == |ChainOf(s, b)|
              && (forall i :: 0 <= i < |charges| ==> PriceUsage(delta, ChainOf(s, b)[i].rate, coef) == Ok(charges[i].amount))
              && forall i :: 0 <= i < |charges| ==>
                   var e := ChainOf(s, b)[i]; charges[i] == Charge(e.child, e.parent, delta, e.rate, charges[i].amount)
  {
    hide TreeOk, Consistent, Covered, MeterOk, Edges, PriceUsage, Coefficient;
    ChainThere(s, b);
    var delta, coef := x - Mark(s, b), Coefficient(s.coefs, s.bindings[b].panel);
    var r := Cascade(delta, ChainOf(s, b), coef);
    if r.Err? { CascadeFails(delta, ChainOf(s, b), coef, r.error); }
  }

  /**
   What a reading above the checkpoint answers. If some level cannot be priced, nothing has happened. Otherwise
   the levels it had been paid for before, and then the others, pay in turn up to the first that is hindered: all
   of them, and it is settled with one charge a level; one short of credit, and it is held, with
   what the levels before owe together; one that fails for another reason, and that is the answer.
   */
  lemma GrowthAnswers(s: Shop, b: nat, x: nat)
    requires Prefixed(s, b) && Above(s, b, x)
    ensures var o, charges, m, n := Observe(s, b, x).1, Charges(s, b, x), PaidBefore(s, b, x), Reach(s, b, x);
            var plan := PlanFor(s, s.bindings[b], x - Mark(s, b));
            if plan.NotPlanned? then Observe(s, b, x) == (s, Failed(plan.fault))
            else
              && charges == plan.charges && n <= |charges| && m <= |charges|
              && (forall i :: 0 <= i < n && i < m ==> charges[i].amount >= 1)
              && (forall i :: 0 <= i < n - m ==> Hindrance(s.books, s.tree.orgs, charges[m..], i) == None)
              && (n == |charges| ==> o == Settled(charges))
              && (n < m ==> charges[n].amount < 1 && o == Failed(Declined(NotPositive)))
              && (m <= n < |charges| ==>
                    var hindrance := Hindrance(s.books, s.tree.orgs, charges[m..], n - m);
                    hindrance.Some? && o == Refusing(hindrance.value, charges, n))
  {
    hide Bound, Prefixed, PlanFor, Linked, PaidBefore, Begun, Settle, Hindrance, Observe, Finished, Charges, Mark,
         ChainOf, Total, Unpriced;
    PrefixedIsBound(s, b);
    GrowthUnfolds(s, b, x);
    PlannedIff(s, b, x);
    var plan := PlanFor(s, s.bindings[b], x - Mark(s, b));
    if plan.Planned? {
      ChargesLink(s, b, x);
      GrowthBegun(s, b, x);
      SettleStops(s.books, s.tree.orgs, b, Mark(s, b), x, plan.charges, 0, PaidBefore(s, b, x));
    }
  }

  lemma GrowthBegun(s: Shop, b: nat, x: nat)
    requires Prefixed(s, b) && Above(s, b, x) && PlanFor(s, s.bindings[b], x - Mark(s, b)).Planned?
    ensures Begun(s.books.journal, b, Mark(s, b), x, Charges(s, b, x), PaidBefore(s, b, x))
    ensures PaidBefore(s, b, x) <= |Charges(s, b, x)|
  {
    hide Bound, PairOk, PlanFor, OnFile;
    PrefixedIsBound(s, b);
    PlannedIff(s, b, x);
    if Charges(s, b, x) != [] { BegunBefore(s, b, x); }
  }

  /** Observe above the checkpoint, by the two things it does. */
  lemma GrowthUnfolds(s: Shop, b: nat, x: nat)
    requires Above(s, b, x)
    ensures var plan := PlanFor(s, s.bindings[b], x - Mark(s, b));
            if plan.NotPlanned? then Observe(s, b, x) == (s, Failed(plan.fault))
            else
              var how := Settle(s.books, s.tree.orgs, b, Mark(s, b), x, plan.charges, 0).1;
              && (how == Paid ==> Observe(s, b, x).1 == Settled(plan.charges))
              && (how.Short? ==> Observe(s, b, x).1 == Hold(how.pending))
              && (how.Stopped? ==> Observe(s, b, x).1 == Failed(Declined(how.why)))
  {
    hide PlanFor, Settle;
  }

  // ---- batches ----

  /** The k-th reading creates the checkpoint of its binding. */
  predicate Creates(s: Shop, items: seq<(nat, nat)>, k: nat)
    requires k < |items|
  {
    items[k].0 in s.bindings && MeterOf(AfterItems(s, items[..k]), items[k].0).checkpoint == None
  }

  /** The first charge that is not on file is the i-th, and none up to it is zero. */
  predicate FirstNew(journal: seq<Tx>, b: nat, from: int, to: int, rows: seq<Charge>, i: nat) {
    && i < |rows| && !Has(journal, ChargeKey(b, from, to, rows[i]))
    && (forall j :: 0 <= j < i ==> Has(journal, ChargeKey(b, from, to, rows[j])))
    && forall j :: 0 <= j <= i ==> rows[j].amount > 0
  }

  /**
   The k-th reading makes the session send what it holds back: it grows, can be priced, and gets past
   charges that are on file to one that is not, which is positive too.
   */
  ghost predicate Sends(s: Shop, items: seq<(nat, nat)>, k: nat)
    requires k < |items|
  {
    var (b, x) := items[k];
    var now := AfterItems(s, items[..k]);
    && b in s.bindings && MeterOf(now, b).checkpoint.Some? && x >= Mark(now, b)
    && var plan := PlanFor(now, s.bindings[b], x - Mark(now, b));
       && plan.Planned?
       && exists i: nat :: FirstNew(now.books.journal, b, Mark(now, b), x, plan.charges, i)
  }

  /** The binding of the k-th reading has a checkpoint that this batch has made and not sent yet. */
  ghost predicate Doubles(s: Shop, items: seq<(nat, nat)>, k: nat)
    requires k < |items|
  {
    exists i :: 0 <= i < k && items[i].0 == items[k].0 && Creates(s, items, i) && forall j :: i < j < k ==> !Sends(s, items, j)
  }

  /** The first checkpoints that are not sent before the k-th reading. */
  function UnsentAt(s: Shop, items: seq<(nat, nat)>, k: nat): set<nat>
    requires k <= |items|
  {
    if k == 0 then {}
    else Unsent(AfterItems(s, items[..k - 1]), items[k - 1].0, items[k - 1].1, UnsentAt(s, items, k - 1))
  }

  lemma ObserveBindings(s: Shop, b: nat, x: nat)
    ensures Observe(s, b, x).0.bindings == s.bindings
  {
    hide Settle, PlanFor;
  }

  lemma {:induction false} ItemsBindings(s: Shop, items: seq<(nat, nat)>)
    ensures AfterItems(s, items).bindings == s.bindings
  {
    hide Observe;
    if items != [] {
      var n := |items| - 1;
      ItemsBindings(s, items[..n]);
      ObserveBindings(AfterItems(s, items[..n]), items[n].0, items[n].1);
    }
  }

  lemma FirstNewRest(journal: seq<Tx>, b: nat, from: int, to: int, rows: seq<Charge>, i: nat)
    requires rows != []
    ensures FirstNew(journal, b, from, to, rows, i + 1)
       <==> rows[0].amount > 0 && Has(journal, ChargeKey(b, from, to, rows[0])) && FirstNew(journal, b, from, to, rows[1..], i)
  {
    hide Has;
    var rest := rows[1..];
    if FirstNew(journal, b, from, to, rows, i + 1) {
      forall j | 0 <= j < i ensures Has(journal, ChargeKey(b, from, to, rest[j])) {
        assert Has(journal, ChargeKey(b, from, to, rows[j + 1]));
      }
      assert rest[i] == rows[i + 1];
    } else if FirstNew(journal, b, from, to, rest, i) && rows[0].amount > 0 && Has(journal, ChargeKey(b, from, to, rows[0])) {
      forall j | 0 <= j < i + 1 ensures Has(journal, ChargeKey(b, from, to, rows[j])) {
        if j > 0 { assert Has(journal, ChargeKey(b, from, to, rest[j - 1])); }
      }
      assert rest[i] == rows[i + 1];
      forall j | 0 <= j <= i + 1 ensures rows[j].amount > 0 {
        if j > 0 { assert rest[j - 1].amount > 0; }
      }
    }
  }

  lemma {:induction false} FlushesIff(journal: seq<Tx>, b: nat, from: int, to: int, rows: seq<Charge>)
    ensures Flushes(journal, b, from, to, rows) <==> exists i: nat :: FirstNew(journal, b, from, to, rows, i)
    decreases |rows|
  {
    if rows != [] {
      FlushesIff(journal, b, from, to, rows[1..]);
      assert FirstNew(journal, b, from, to, rows, 0)
        <==> rows[0].amount > 0 && !Has(journal, ChargeKey(b, from, to, rows[0]));
      hide FirstNew, Has;
      if i: nat :| FirstNew(journal, b, from, to, rows[1..], i) { FirstNewRest(journal, b, from, to, rows, i); }
      if i: nat :| FirstNew(journal, b, from, to, rows, i) {
        if i > 0 { FirstNewRest(journal, b, from, to, rows, i - 1); }
      }
    }
  }

  lemma UnsentStep(s: Shop, items: seq<(nat, nat)>, k: nat, c: nat)
    requires k < |items|
    ensures c in UnsentAt(s, items, k + 1)
       <==> (c == items[k].0 && Creates(s, items, k)) || (c in UnsentAt(s, items, k) && !Sends(s, items, k))
  {
    hide PlanFor, FirstNew, Flushes;
    var (b, x) := items[k];
    var now := AfterItems(s, items[..k]);
    ItemsBindings(s, items[..k]);
    if b in s.bindings && MeterOf(now, b).checkpoint.Some? {
      var plan := PlanFor(now, s.bindings[b], x - Mark(now, b));
      if plan.Planned? { FlushesIff(now.books.journal, b, Mark(now, b), x, plan.charges); }
    }
  }

  lemma {:induction false} UnsentIff(s: Shop, items: seq<(nat, nat)>, k: nat, c: nat)
    requires k <= |items|
    ensures c in UnsentAt(s, items, k)
       <==> exists i :: 0 <= i < k && items[i].0 == c && Creates(s, items, i) && forall j :: i < j < k ==> !Sends(s, items, j)
  {
    hide Creates, Sends, UnsentAt;
    if k == 0 {
      NothingUnsent(s, items);
    } else {
      UnsentIff(s, items, k - 1, c);
      UnsentStep(s, items, k - 1, c);
    }
  }

  lemma NothingUnsent(s: Shop, items: seq<(nat, nat)>)
    ensures UnsentAt(s, items, 0) == {}
  {}

  /** A batch from its k-th item on. */
  lemma {:induction false} BatchAt(s: Shop, items: seq<(nat, nat)>, k: nat)
    requires k <= |items|
    ensures var r := BatchFrom(AfterItems(s, items[..k]), items[k..], UnsentAt(s, items, k));
            && (r.Some? <==> forall j :: k <= j < |items| ==> !Answer(s, items, j).Failed? && items[j].0 !in UnsentAt(s, items, j))
            && (r.Some? ==> r.value == AfterItems(s, items))
    decreases |items| - k
  {
    hide Observe, Unsent;
    if k == |items| {
      assert items[..k] == items && items[k..] == [];
    } else {
      assert items[k..][0] == items[k] && items[k..][1..] == items[k + 1..];
      assert items[..k + 1][..k] == items[..k];
      BatchAt(s, items, k + 1);
    }
  }

  /**
   A batch survives if and only if no reading fails in the shop that the ones before it have left, and none meets a
   first checkpoint of its binding that the batch has not sent yet. Then everything is kept, settled or
   held; otherwise nothing is.
   */
  lemma BatchSurvivesIff(s: Shop, items: seq<(nat, nat)>)
    ensures Batch(s, items).Some?
       <==> forall k :: 0 <= k < |items| ==> !Answer(s, items, k).Failed? && !Doubles(s, items, k)
    ensures Batch(s, items).Some? ==> Batch(s, items).value == AfterItems(s, items)
  {
    hide Observe, Creates, Sends, Answer, UnsentAt;
    NothingUnsent(s, items);
    assert items[..0] == [] && items[0..] == items;
    BatchAt(s, items, 0);
    forall k | 0 <= k < |items| ensures items[k].0 in UnsentAt(s, items, k) <==> Doubles(s, items, k) {
      UnsentIff(s, items, k, items[k].0);
    }
  }

  /** A reading of a binding that does not exist fails, and with it the batch. */
  lemma StrangerFails(s: Shop, items: seq<(nat, nat)>, k: nat)
    requires k < |items| && items[k].0 !in s.bindings
    ensures Answer(s, items, k) == Failed(NoBinding) && Batch(s, items) == None
  {
    ItemsBindings(s, items[..k]);
    BatchSurvivesIff(s, items);
  }
}
