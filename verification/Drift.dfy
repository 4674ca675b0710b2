/**
 What a level of the chain is charged over an epoch, from one baseline of the counter to the next,
 against what the bytes of the epoch would cost at once.
 */
module Drift {
  import opened Options
  import opened Sums
  import opened Ledger
  import opened Pricing
  import opened Resellers
  import opened Settlement
  import opened Metering
  import opened Epochs

  function Amount(t: Tx): int {
    if t.entries == [] then 0 else t.entries[0].amount
  }

  /** The amount of the first transaction with this key, or zero. */
  function AmountOf(journal: seq<Tx>, key: Key): int {
    if journal == [] then 0
    else
      var n := |journal| - 1;
      if Has(journal[..n], key) then AmountOf(journal[..n], key)
      else if journal[n].key == key then Amount(journal[n])
      else 0
  }

  lemma {:induction false} AmountJoin(x: seq<Tx>, y: seq<Tx>, key: Key)
    ensures AmountOf(x + y, key) == if Has(x, key) then AmountOf(x, key) else AmountOf(y, key)
  {
    if y == [] {
      assert x + y == x;
      if !Has(x, key) { AmountAbsent(x, key); }
    } else {
      var n := |y| - 1;
      assert (x + y)[..|x| + n] == x + y[..n];
      HasJoin(x, y[..n], key);
      AmountJoin(x, y[..n], key);
    }
  }

  lemma {:induction false} AmountAbsent(x: seq<Tx>, key: Key)
    requires !Has(x, key)
    ensures AmountOf(x, key) == 0
  {
    if x != [] { assert x[|x| - 1].key != key; }
  }

  lemma {:induction false} AmountOfMissing(journal: seq<Tx>, b: nat, from: int, to: int, rows: seq<Charge>, i: nat)
    requires Linked(rows) && i < |rows| && !Has(journal, ChargeKey(b, from, to, rows[i]))
    ensures AmountOf(MissingTxs(journal, b, from, to, rows), ChargeKey(b, from, to, rows[i])) == rows[i].amount
    decreases |rows|
  {
    var key := ChargeKey(b, from, to, rows[i]);
    var first := if Has(journal, ChargeKey(b, from, to, rows[0])) then [] else [ChargeTx(b, from, to, rows[0])];
    AmountJoin(first, MissingTxs(journal, b, from, to, rows[1..]), key);
    if i > 0 {
      LinkedRest(rows);
      assert rows[1..][i - 1] == rows[i];
      AmountOfMissing(journal, b, from, to, rows[1..], i - 1);
      assert !Has(first, key);
    } else {
      assert first[..0] == [] && first[0].key == key;
    }
  }

  // ---- every charge has its price ----

  predicate PricedLevel(journal: seq<Tx>, b: nat, from: int, to: int, e: Edge, coef: int) {
    var p := PriceUsage(to - from, e.rate, coef);
    p.Ok? && p.value == AmountOf(journal, UsageKey(b, from, to, e.child))
  }

  /**
   Every charge of the binding that was not on file before, of an accepted pair of readings or not, is the
   price of its interval at this coefficient.
   */
  ghost predicate PricedSince(before: seq<Tx>, s: Shop, b: nat, coef: int) {
    forall from, to, i :: 0 <= i < |ChainOf(s, b)| && OnFile(s.books.journal, b, from, to, ChainOf(s, b)[i].child)
                          && !OnFile(before, b, from, to, ChainOf(s, b)[i].child)
      ==> PricedLevel(s.books.journal, b, from, to, ChainOf(s, b)[i], coef)
  }

  lemma ChargePrice(s: Shop, b: nat, x: nat, i: nat)
    requires Bound(s, b) && i < |Charges(s, b, x)|
    ensures i < |ChainOf(s, b)|
    ensures PriceUsage(x - Mark(s, b), ChainOf(s, b)[i].rate, Coefficient(s.coefs, s.bindings[b].panel))
         == Ok(Charges(s, b, x)[i].amount)
  {
    hide PriceUsage, TreeOk, Consistent, Covered, MeterOk;
    PlanCascade(s, b, x - Mark(s, b), Charges(s, b, x));
  }

  lemma LinkedPrefix(rows: seq<Charge>, n: nat)
    requires Linked(rows) && n <= |rows|
    ensures Linked(rows[..n])
  {}

  /** A charge that a reading adds has the price of its interval. */
  lemma FiledPrice(s: Shop, b: nat, x: nat, i: nat)
    requires Bound(s, b) && i < |ChainOf(s, b)| && i < Reach(s, b, x)
    requires !OnFile(s.books.journal, b, Mark(s, b), x, ChainOf(s, b)[i].child)
    ensures PricedLevel(Observe(s, b, x).0.books.journal, b, Mark(s, b), x, ChainOf(s, b)[i],
                        Coefficient(s.coefs, s.bindings[b].panel))
  {
    hide PriceUsage, Observe, Reach, Charges, Linked, MissingTxs, ChainOf;
    var rows, n := Charges(s, b, x), Reach(s, b, x);
    ReadingFiles(s, b, x);
    ChargesLink(s, b, x);
    ChargePrice(s, b, x, i);
    LinkedPrefix(rows, n);
    var key := UsageKey(b, Mark(s, b), x, ChainOf(s, b)[i].child);
    assert rows[..n][i] == rows[i] && ChargeKey(b, Mark(s, b), x, rows[i]) == key;
    AmountOfMissing(s.books.journal, b, Mark(s, b), x, rows[..n], i);
    AmountJoin(s.books.journal, MissingTxs(s.books.journal, b, Mark(s, b), x, rows[..n]), key);
  }

  lemma PriceStands(x: seq<Tx>, y: seq<Tx>, b: nat, from: int, to: int, e: Edge, coef: int)
    requires Has(x, UsageKey(b, from, to, e.child)) && PricedLevel(x, b, from, to, e, coef)
    ensures PricedLevel(x + y, b, from, to, e, coef)
  {
    AmountJoin(x, y, UsageKey(b, from, to, e.child));
  }

  lemma ReadingKeepsPrices(before: seq<Tx>, s: Shop, b: nat, x: nat, coef: int)
    requires Bound(s, b) && PricedSince(before, s, b, coef) && Coefficient(s.coefs, s.bindings[b].panel) == coef
    ensures PricedSince(before, Observe(s, b, x).0, b, coef)
  {
    hide PricedLevel, Observe, Reach, Charges, MissingTxs, ChainOf, Bound;
    var after, es := Observe(s, b, x).0, ChainOf(s, b);
    ReadingKeepsBound(s, b, x);
    ReadingFiles(s, b, x);
    ChainDistinct(s, b);
    ChargesLink(s, b, x);
    forall from, to, i | 0 <= i < |es| && OnFile(after.books.journal, b, from, to, es[i].child)
                         && !OnFile(before, b, from, to, es[i].child)
      ensures PricedLevel(after.books.journal, b, from, to, es[i], coef)
    {
      FiledBy(s, b, x, from, to, es[i].child);
      if OnFile(s.books.journal, b, from, to, es[i].child) {
        PriceStands(s.books.journal, MissingTxs(s.books.journal, b, Mark(s, b), x, Charges(s, b, x)[..Reach(s, b, x)]),
                    b, from, to, es[i], coef);
      } else {
        FiledPrice(s, b, x, i);
      }
    }
  }

  lemma ElsewhereKeepsPrices(before: seq<Tx>, s: Shop, s': Shop, b: nat, coef: int)
    requires Elsewhere(s, s', b) && PricedSince(before, s, b, coef)
    ensures PricedSince(before, s', b, coef)
  {
    hide Bound, PricedLevel, ChainOf, Uncharged;
    var rest := s'.books.journal[|s.books.journal|..];
    assert s'.books.journal == s.books.journal + rest;
    forall from, to, i | 0 <= i < |ChainOf(s, b)| && OnFile(s'.books.journal, b, from, to, ChainOf(s, b)[i].child)
                         && !OnFile(before, b, from, to, ChainOf(s, b)[i].child)
      ensures PricedLevel(s'.books.journal, b, from, to, ChainOf(s, b)[i], coef)
    {
      ElsewhereFiles(s, s', b, from, to, ChainOf(s, b)[i].child);
      PriceStands(s.books.journal, rest, b, from, to, ChainOf(s, b)[i], coef);
    }
  }

  /** From state j up to state k the coefficient of the binding's server has been the same. */
  ghost predicate Steady(trace: seq<Shop>, b: nat, coef: int, j: nat, k: nat)
    requires k < |trace|
  {
    forall i :: j <= i < k ==> b in trace[i].bindings && Coefficient(trace[i].coefs, trace[i].bindings[b].panel) == coef
  }

  /** While the coefficient is steady, every charge that is filed is the price of its own interval, at every level. */
  lemma {:induction false} RunPriced(trace: seq<Shop>, kept: seq<Option<nat>>, b: nat, coef: int, j: nat, k: nat)
    requires UsageRun(trace, kept, b) && j <= k < |trace| && Steady(trace, b, coef, j, k)
    ensures PricedSince(trace[j].books.journal, trace[k], b, coef)
    decreases k
  {
    hide Bound, Observe, Elsewhere, Prefixed, Blank, PricedLevel;
    if j < k {
      RunPriced(trace, kept, b, coef, j, k - 1);
      RunPrefixed(trace, kept, b, k - 1);
      PrefixedIsBound(trace[k - 1], b);
      hide PricedSince;
      assert Moves(trace[k - 1], kept[k - 1], trace[k], b);
      if kept[k - 1].Some? {
        ReadingKeepsPrices(trace[j].books.journal, trace[k - 1], b, kept[k - 1].value, coef);
      } else {
        ElsewhereKeepsPrices(trace[j].books.journal, trace[k - 1], trace[k], b, coef);
      }
    }
  }

  lemma NothingBefore(trace: seq<Shop>, kept: seq<Option<nat>>, b: nat, from: int, to: int, c: nat)
    requires UsageRun(trace, kept, b)
    ensures !OnFile(trace[0].books.journal, b, from, to, c)
  {}

  // ---- what a level was charged, and for what ----

  predicate IsCharge(t: Tx, b: nat, c: nat) {
    t.key.UsageKey? && t.key.binding == b && t.key.child == c
  }

  /** Everything `c` was charged for the binding. */
  function LevelPaid(journal: seq<Tx>, b: nat, c: nat): int {
    if journal == [] then 0
    else
      var n := |journal| - 1;
      LevelPaid(journal[..n], b, c) + (if IsCharge(journal[n], b, c) then Amount(journal[n]) else 0)
  }

  /** The part of it that is for other pairs of readings than these. */
  function Abandoned(journal: seq<Tx>, b: nat, c: nat, spans: seq<(int, int)>): int {
    if journal == [] then 0
    else
      var n := |journal| - 1;
      Abandoned(journal[..n], b, c, spans)
      + (if IsCharge(journal[n], b, c) && (journal[n].key.from, journal[n].key.to) !in spans then Amount(journal[n]) else 0)
  }

  /** What is on file at the level of `c` for a list of intervals. */
  function LevelBill(journal: seq<Tx>, b: nat, c: nat, spans: seq<(int, int)>): int {
    if spans == [] then 0
    else
      var last := spans[|spans| - 1];
      LevelBill(journal, b, c, spans[..|spans| - 1]) + AmountOf(journal, UsageKey(b, last.0, last.1, c))
  }

  /** The intervals in which the counter grew. */
  function Growths(spans: seq<(int, int)>): seq<(int, int)> {
    if spans == [] then []
    else
      var last := spans[|spans| - 1];
      Growths(spans[..|spans| - 1]) + (if last.0 < last.1 then [last] else [])
  }

  predicate NoDuplicates(spans: seq<(int, int)>) {
    forall i, j :: 0 <= i < j < |spans| ==> spans[i] != spans[j]
  }

  lemma {:induction false} GrowthsInOrder(from: int, to: int, spans: seq<(int, int)>)
    requires Joined(from, to, spans)
    ensures NoDuplicates(Growths(spans)) && from <= to
    ensures forall g :: g in Growths(spans) ==> from <= g.0 < g.1 <= to
    decreases |spans|
  {
    if spans != [] {
      GrowthsInOrder(from, spans[|spans| - 1].0, spans[..|spans| - 1]);
    }
  }

  lemma {:induction false} GrowthsIn(spans: seq<(int, int)>, g: (int, int))
    ensures g in Growths(spans) <==> g in spans && g.0 < g.1
  {
    if spans != [] {
      var n := |spans| - 1;
      GrowthsIn(spans[..n], g);
      assert spans == spans[..n] + [spans[n]];
    }
  }

  lemma WidthsAppend(spans: seq<(int, int)>, g: (int, int))
    ensures Sum(Widths(spans + [g])) == Sum(Widths(spans)) + (g.1 - g.0)
  {
    assert Widths(spans + [g]) == Widths(spans) + [g.1 - g.0];
    SumAppend(Widths(spans), g.1 - g.0);
  }

  /** The growths of an epoch add up to checkpoint minus baseline. */
  lemma {:induction false} GrowthsAddUp(from: int, to: int, spans: seq<(int, int)>)
    requires Joined(from, to, spans)
    ensures Sum(Widths(Growths(spans))) == to - from
    decreases |spans|
  {
    hide Sum, Widths;
    if spans == [] {
      NoWidth();
    } else {
      var n := |spans| - 1;
      GrowthsAddUp(from, spans[n].0, spans[..n]);
      WidthsAppend(Growths(spans[..n]), spans[n]);
      assert Growths(spans[..n]) + [] == Growths(spans[..n]);
    }
  }

  lemma NoWidth()
    ensures Sum(Widths([])) == 0
  {
    assert Widths([]) == [];
  }

  lemma {:induction false} BillAppend(journal: seq<Tx>, t: Tx, b: nat, c: nat, spans: seq<(int, int)>)
    requires !Has(journal, t.key) && NoDuplicates(spans)
    ensures LevelBill(journal + [t], b, c, spans)
         == LevelBill(journal, b, c, spans) + (if IsCharge(t, b, c) && (t.key.from, t.key.to) in spans then Amount(t) else 0)
    decreases |spans|
  {
    hide Amount;
    if spans != [] {
      var n := |spans| - 1;
      var key := UsageKey(b, spans[n].0, spans[n].1, c);
      BillAppend(journal, t, b, c, spans[..n]);
      assert spans == spans[..n] + [spans[n]];
      AmountJoin(journal, [t], key);
      assert AmountOf([t], key) == if t.key == key then Amount(t) else 0 by { AmountOfOne(t, key); }
      if !Has(journal, key) { AmountAbsent(journal, key); }
      assert t.key == key <==> IsCharge(t, b, c) && (t.key.from, t.key.to) == spans[n];
      assert t.key == key ==> spans[n] !in spans[..n];
    }
  }

  lemma AmountOfOne(t: Tx, key: Key)
    ensures AmountOf([t], key) == if t.key == key then Amount(t) else 0
  {
    assert [t][..0] == [];
  }

  /** Of what a level was charged, part is for these intervals and the rest for others. */
  lemma {:induction false} PaidForSpans(journal: seq<Tx>, b: nat, c: nat, spans: seq<(int, int)>)
    requires UniqueKeys(journal) && NoDuplicates(spans)
    ensures LevelPaid(journal, b, c) == LevelBill(journal, b, c, spans) + Abandoned(journal, b, c, spans)
  {
    hide Amount;
    if journal == [] {
      EmptyBill(b, c, spans);
    } else {
      var n := |journal| - 1;
      PaidForSpans(journal[..n], b, c, spans);
      assert journal == journal[..n] + [journal[n]];
      BillAppend(journal[..n], journal[n], b, c, spans);
    }
  }

  lemma {:induction false} EmptyBill(b: nat, c: nat, spans: seq<(int, int)>)
    ensures LevelBill([], b, c, spans) == 0
  {
    if spans != [] { EmptyBill(b, c, spans[..|spans| - 1]); }
  }

  lemma {:induction false} BillJoin(x: seq<Tx>, y: seq<Tx>, b: nat, c: nat, spans: seq<(int, int)>)
    requires UniqueKeys(x + y)
    ensures LevelBill(x + y, b, c, spans) == LevelBill(x, b, c, spans) + LevelBill(y, b, c, spans)
    decreases |spans|
  {
    if spans != [] {
      hide UniqueKeys;
      var n := |spans| - 1;
      var key := UsageKey(b, spans[n].0, spans[n].1, c);
      BillJoin(x, y, b, c, spans[..n]);
      AmountJoin(x, y, key);
      if Has(x, key) { OnlyOneSide(x, y, key); AmountAbsent(y, key); } else { AmountAbsent(x, key); }
    }
  }

  lemma OnlyOneSide(x: seq<Tx>, y: seq<Tx>, key: Key)
    requires UniqueKeys(x + y) && Has(x, key)
    ensures !Has(y, key)
  {
    var i :| 0 <= i < |x| && x[i].key == key;
    forall j | 0 <= j < |y| ensures y[j].key != key {
      assert (x + y)[i] == x[i] && (x + y)[|x| + j] == y[j];
    }
  }

  /**
   What the journal gained at a level is what is on file for these intervals now, less what was on file
   for them before, plus what was charged for readings that are not among them.
   */
  lemma GainedForSpans(before: seq<Tx>, gain: seq<Tx>, b: nat, c: nat, spans: seq<(int, int)>)
    requires UniqueKeys(before + gain) && NoDuplicates(spans)
    ensures LevelPaid(gain, b, c)
         == LevelBill(before + gain, b, c, spans) - LevelBill(before, b, c, spans) + Abandoned(gain, b, c, spans)
  {
    assert UniqueKeys(gain) by {
      forall i, j | 0 <= i < j < |gain| ensures gain[i].key != gain[j].key {
        assert (before + gain)[|before| + i] == gain[i] && (before + gain)[|before| + j] == gain[j];
      }
    }
    PaidForSpans(gain, b, c, spans);
    BillJoin(before, gain, b, c, spans);
  }

  /** Nothing is on file for these intervals exactly when none of their keys is: amounts are positive. */
  lemma {:induction false} BillIsZeroIff(journal: seq<Tx>, b: nat, c: nat, spans: seq<(int, int)>)
    requires forall i :: 0 <= i < |journal| ==> TwoSided(journal[i])
    ensures LevelBill(journal, b, c, spans) >= 0
    ensures LevelBill(journal, b, c, spans) == 0 <==> forall i :: 0 <= i < |spans| ==> !OnFile(journal, b, spans[i].0, spans[i].1, c)
    decreases |spans|
  {
    if spans != [] {
      var n := |spans| - 1;
      BillIsZeroIff(journal, b, c, spans[..n]);
      AmountPositive(journal, UsageKey(b, spans[n].0, spans[n].1, c));
      assert forall i :: 0 <= i < n ==> spans[..n][i] == spans[i];
    }
  }

  lemma {:induction false} AmountPositive(journal: seq<Tx>, key: Key)
    requires forall i :: 0 <= i < |journal| ==> TwoSided(journal[i])
    ensures if Has(journal, key) then AmountOf(journal, key) >= 1 else AmountOf(journal, key) == 0
  {
    if journal != [] {
      var n := |journal| - 1;
      AmountPositive(journal[..n], key);
      assert Has(journal, key) <==> Has(journal[..n], key) || journal[n].key == key by {
        assert journal == journal[..n] + [journal[n]];
        HasJoin(journal[..n], [journal[n]], key);
        assert [journal[n]][0] == journal[n];
      }
    }
  }

  /** Nothing was charged for other readings exactly when every charge of the level is for one of these intervals. */
  lemma {:induction false} AbandonedIsZeroIff(journal: seq<Tx>, b: nat, c: nat, spans: seq<(int, int)>)
    requires forall i :: 0 <= i < |journal| ==> TwoSided(journal[i])
    ensures Abandoned(journal, b, c, spans) >= 0
    ensures Abandoned(journal, b, c, spans) == 0
       <==> forall i :: 0 <= i < |journal| && IsCharge(journal[i], b, c) ==> (journal[i].key.from, journal[i].key.to) in spans
  {
    if journal != [] {
      var n := |journal| - 1;
      AbandonedIsZeroIff(journal[..n], b, c, spans);
      assert forall i :: 0 <= i < n ==> journal[..n][i] == journal[i];
      assert TwoSided(journal[n]);
    }
  }

  // ---- an epoch ----

  function Rows(s: Shop, b: nat): seq<UsageRow> {
    MeterOf(s, b).rows
  }

  /** State j is the one right after the last baseline before state k. */
  ghost predicate EpochFrom(trace: seq<Shop>, b: nat, j: nat, k: nat) {
    && 0 < j <= k < |trace|
    && Rows(trace[j - 1], b) < Rows(trace[j], b) <= Rows(trace[k], b)
    && Rebases(Rows(trace[j], b)[|Rows(trace[j], b)| - 1])
    && forall i :: |Rows(trace[j], b)| <= i < |Rows(trace[k], b)| ==> !Rebases(Rows(trace[k], b)[i])
  }

  /** What the journal has gained between two states. */
  function Gain(trace: seq<Shop>, j: nat, k: nat): seq<Tx>
    requires j <= k < |trace| && |trace[j].books.journal| <= |trace[k].books.journal|
  {
    trace[k].books.journal[|trace[j].books.journal|..]
  }

  lemma {:induction false} JournalGrows(trace: seq<Shop>, kept: seq<Option<nat>>, b: nat, j: nat, k: nat)
    requires UsageRun(trace, kept, b) && j <= k < |trace|
    ensures trace[j].books.journal <= trace[k].books.journal
    decreases k
  {
    hide Blank, Observe, Bound, Prefixed, Uncharged, MissingTxs, Charges, Reach;
    if j < k {
      JournalGrows(trace, kept, b, j, k - 1);
      assert Moves(trace[k - 1], kept[k - 1], trace[k], b);
      if kept[k - 1].Some? {
        RunPrefixed(trace, kept, b, k - 1);
        PrefixedIsBound(trace[k - 1], b);
        ReadingFiles(trace[k - 1], b, kept[k - 1].value);
      }
    }
  }

  /** The growths accepted in the epoch of state k. */
  function EpochGrowths(s: Shop, b: nat): seq<(int, int)> {
    Growths(Spans(Rows(s, b)))
  }

  lemma EpochJoined(s: Shop, b: nat)
    requires Bound(s, b) && MeterOf(s, b).checkpoint.Some?
    ensures NoDuplicates(EpochGrowths(s, b))
    ensures Sum(Widths(EpochGrowths(s, b))) == Mark(s, b) - Base(Rows(s, b))
    ensures forall g :: g in EpochGrowths(s, b) ==> g.0 < g.1
  {
    hide TreeOk, Consistent, Covered;
    GrowthsInOrder(Base(Rows(s, b)), Mark(s, b), Spans(Rows(s, b)));
    GrowthsAddUp(Base(Rows(s, b)), Mark(s, b), Spans(Rows(s, b)));
  }

  /** The intervals of the epoch are accepted pairs, so at every level they are on file at their price. */
  lemma GrowthsPriced(before: seq<Tx>, s: Shop, b: nat, coef: int, level: nat, g: (int, int))
    requires Prefixed(s, b) && PricedSince(before, s, b, coef) && level < |ChainOf(s, b)| && g in EpochGrowths(s, b)
    requires !OnFile(before, b, g.0, g.1, ChainOf(s, b)[level].child)
    ensures g.0 < g.1 && PricedLevel(s.books.journal, b, g.0, g.1, ChainOf(s, b)[level], coef)
  {
    hide PricedLevel, Bound, ChainOf, OnFile, AcceptedSpan;
    GrowthsIn(Spans(Rows(s, b)), g);
    var i :| 0 <= i < |Spans(Rows(s, b))| && Spans(Rows(s, b))[i] == g;
    SpanIsRow(Rows(s, b), i);
    assert PairOk(s, b, g.0, g.1);
  }

  lemma {:induction false} SpanIsRow(rows: seq<UsageRow>, k: nat)
    requires k < |Spans(rows)| && Spans(rows)[k].0 < Spans(rows)[k].1
    ensures AcceptedSpan(rows, Spans(rows)[k].0, Spans(rows)[k].1)
  {
    var n := |rows| - 1;
    assert rows == rows[..n] + [rows[n]];
    RowAdded(rows[..n], rows[n]);
    SpanAdded(rows[..n], rows[n], Spans(rows)[k].0, Spans(rows)[k].1);
    if k < |Spans(rows[..n])| { SpanIsRow(rows[..n], k); }
  }

  /** Prices on file for a list of growths stay within half a rial a growth of the price of their total. */
  lemma BillNear(journal: seq<Tx>, b: nat, e: Edge, coef: int, gs: seq<(int, int)>, whole: nat)
    requires forall g :: g in gs ==> g.0 < g.1 && PricedLevel(journal, b, g.0, g.1, e, coef)
    requires PriceUsage(Sum(Widths(gs)), e.rate, coef) == Ok(whole)
    requires Sum(Widths(gs)) * e.rate * coef < LIMIT
    ensures -(|gs| as int) <= 2 * (LevelBill(journal, b, e.child, gs) - whole) <= |gs|
  {
    PricedSigns(Sum(Widths(gs)), e.rate, coef);
    hide PriceUsage;
    var parts, prices := BillParts(journal, b, e, coef, gs);
    ReadingDrift(parts, e.rate, coef, prices, whole);
  }

  lemma {:induction false} BillParts(journal: seq<Tx>, b: nat, e: Edge, coef: int, gs: seq<(int, int)>)
    returns (parts: seq<nat>, prices: seq<nat>)
    requires forall g :: g in gs ==> g.0 < g.1 && PricedLevel(journal, b, g.0, g.1, e, coef)
    ensures |parts| == |prices| == |gs| && Sum(parts) == Sum(Widths(gs)) && Sum(prices) == LevelBill(journal, b, e.child, gs)
    ensures forall i :: 0 <= i < |parts| ==> PriceUsage(parts[i], e.rate, coef) == Ok(prices[i])
  {
    hide PriceUsage, Sum, Widths, AmountOf;
    if gs == [] {
      parts, prices := [], [];
      NoWidth();
      NoSum();
    } else {
      var n := |gs| - 1;
      var g := gs[n];
      assert gs == gs[..n] + [g];
      var early, costs := BillParts(journal, b, e, coef, gs[..n]);
      var cost := PriceUsage(g.1 - g.0, e.rate, coef).value;
      WidthsAppend(gs[..n], g);
      SumAppend(early, g.1 - g.0);
      SumAppend(costs, cost);
      parts, prices := early + [g.1 - g.0], costs + [cost];
    }
  }

  lemma NoSum()
    ensures Sum([]) == 0
  {}

  /**
   What a level was charged since j is what is on file for the growths of the epoch, less what was on
   file for them then, plus what was abandoned.
   */
  lemma EpochGain(trace: seq<Shop>, kept: seq<Option<nat>>, b: nat, j: nat, k: nat, level: nat)
    requires UsageRun(trace, kept, b) && j <= k < |trace| && level < |ChainOf(trace[k], b)| && MeterOf(trace[k], b).checkpoint.Some?
    ensures trace[j].books.journal <= trace[k].books.journal
    ensures var c, gs := ChainOf(trace[k], b)[level].child, EpochGrowths(trace[k], b);
            LevelPaid(Gain(trace, j, k), b, c)
              == LevelBill(trace[k].books.journal, b, c, gs) - LevelBill(trace[j].books.journal, b, c, gs)
                 + Abandoned(Gain(trace, j, k), b, c, gs)
  {
    hide UsageRun, Prefixed, EpochGrowths, Bound, ChainOf, UniqueKeys, LevelBill, LevelPaid, Abandoned;
    JournalGrows(trace, kept, b, j, k);
    RunPrefixed(trace, kept, b, k);
    PrefixedIsBound(trace[k], b);
    EpochJoined(trace[k], b);
    UniqueOf(trace[k], b);
    assert trace[k].books.journal == trace[j].books.journal + Gain(trace, j, k);
    GainedForSpans(trace[j].books.journal, Gain(trace, j, k), b, ChainOf(trace[k], b)[level].child, EpochGrowths(trace[k], b));
  }

  /**
   Over an epoch read in n growing steps at one rate and coefficient: what the journal gained at a level,
   plus what it already held for intervals of this epoch when the epoch began (pairs of readings repeated
   after a reset, which move no money), less what was charged for readings that were never accepted, is
   what the bytes of the epoch would cost at once, up to n / 2 rials.
   */
  lemma EpochDrift(trace: seq<Shop>, kept: seq<Option<nat>>, b: nat, coef: int, j: nat, k: nat, level: nat, whole: nat)
    requires UsageRun(trace, kept, b) && EpochFrom(trace, b, j, k) && Steady(trace, b, coef, 0, k)
    requires MeterOf(trace[k], b).checkpoint.Some? && level < |ChainOf(trace[k], b)|
    requires var total, rate := Mark(trace[k], b) - Base(Rows(trace[k], b)), ChainOf(trace[k], b)[level].rate;
             PriceUsage(total, rate, coef) == Ok(whole) && total * rate * coef < LIMIT
    ensures trace[j].books.journal <= trace[k].books.journal
    ensures var c, gs := ChainOf(trace[k], b)[level].child, EpochGrowths(trace[k], b);
            var due := LevelPaid(Gain(trace, j, k), b, c) + LevelBill(trace[j].books.journal, b, c, gs)
                       - Abandoned(Gain(trace, j, k), b, c, gs);
            -(|gs| as int) <= 2 * (due - whole) <= |gs|
  {
    hide PriceUsage, UsageRun, EpochFrom, Prefixed, PricedSince, OnFile, EpochGrowths, Bound, ChainOf, UniqueKeys, LevelBill, LevelPaid,
         Abandoned, PricedLevel, Mark, Base;
    EpochOrder(trace, b, j, k);
    var s, e, gs := trace[k], ChainOf(trace[k], b)[level], EpochGrowths(trace[k], b);
    JournalGrows(trace, kept, b, j, k);
    RunPrefixed(trace, kept, b, k);
    PrefixedIsBound(s, b);
    RunPriced(trace, kept, b, coef, 0, k);
    EpochJoined(s, b);
    forall g | g in gs ensures g.0 < g.1 && PricedLevel(s.books.journal, b, g.0, g.1, e, coef) {
      NothingBefore(trace, kept, b, g.0, g.1, e.child);
      GrowthsPriced(trace[0].books.journal, s, b, coef, level, g);
    }
    BillNear(s.books.journal, b, e, coef, gs, whole);
    UniqueOf(s, b);
    assert s.books.journal == trace[j].books.journal + Gain(trace, j, k);
    GainedForSpans(trace[j].books.journal, Gain(trace, j, k), b, e.child, gs);
  }

  lemma EpochOrder(trace: seq<Shop>, b: nat, j: nat, k: nat)
    requires EpochFrom(trace, b, j, k)
    ensures 0 < j <= k < |trace|
  {}

  predicate NoneOnFile(journal: seq<Tx>, b: nat, c: nat, gs: seq<(int, int)>) {
    forall i :: 0 <= i < |gs| ==> !OnFile(journal, b, gs[i].0, gs[i].1, c)
  }

  /**
   The shortfall of an epoch: it is never negative, it is the prices of exactly those intervals whose pair
   of readings was on file before the epoch began, and it is zero if and only if there is none.
   */
  lemma ShortfallIff(trace: seq<Shop>, kept: seq<Option<nat>>, b: nat, coef: int, j: nat, k: nat, level: nat)
    requires UsageRun(trace, kept, b) && j <= k < |trace| && Steady(trace, b, coef, 0, j) && level < |ChainOf(trace[k], b)|
    ensures var e, gs, before := ChainOf(trace[k], b)[level], EpochGrowths(trace[k], b), trace[j].books.journal;
            && LevelBill(before, b, e.child, gs) >= 0
            && (LevelBill(before, b, e.child, gs) == 0 <==> NoneOnFile(before, b, e.child, gs))
            && forall i :: 0 <= i < |gs| ==>
                 if OnFile(before, b, gs[i].0, gs[i].1, e.child) then PricedLevel(before, b, gs[i].0, gs[i].1, e, coef)
                 else AmountOf(before, UsageKey(b, gs[i].0, gs[i].1, e.child)) == 0
  {
    hide UsageRun, EpochGrowths, ChainOf, LevelBill, PricedLevel, Steady, AmountOf, Prefixed, Has;
    var e, gs, before := ChainOf(trace[k], b)[level], EpochGrowths(trace[k], b), trace[j].books.journal;
    RunPrefixed(trace, kept, b, j);
    RunChain(trace, kept, b, j, k);
    RunPriced(trace, kept, b, coef, 0, j);
    forall i | 0 <= i < |gs| ensures !OnFile(trace[0].books.journal, b, gs[i].0, gs[i].1, e.child) {
      NothingBefore(trace, kept, b, gs[i].0, gs[i].1, e.child);
    }
    TwoSidedOf(trace[j], b);
    BillIsZeroIff(before, b, e.child, gs);
    forall i | 0 <= i < |gs| && !OnFile(before, b, gs[i].0, gs[i].1, e.child)
      ensures AmountOf(before, UsageKey(b, gs[i].0, gs[i].1, e.child)) == 0
    {
      AmountAbsent(before, UsageKey(b, gs[i].0, gs[i].1, e.child));
    }
  }

  lemma TwoSidedOf(s: Shop, b: nat)
    requires Prefixed(s, b)
    ensures forall i :: 0 <= i < |s.books.journal| ==> TwoSided(s.books.journal[i])
  {}

  // ---- epochs in which every kept reading settled ----

  /** From j on, every reading that was kept was settled. */
  ghost predicate SettledSince(trace: seq<Shop>, kept: seq<Option<nat>>, b: nat, j: nat, k: nat)
    requires |trace| == |kept| + 1 && k < |trace|
  {
    forall t :: j <= t < k && kept[t].Some? ==> Observe(trace[t], b, kept[t].value).1.Settled?
  }

  /** The pair of readings was accepted after the first n observations. */
  ghost predicate AcceptedAfter(rows: seq<UsageRow>, n: nat, from: int, to: int) {
    exists i :: n <= i < |rows| && rows[i] == UsageRow(Accepted, to, to - from)
  }

  lemma RowsGrow(s: Shop, read: Option<nat>, s': Shop, b: nat)
    requires Moves(s, read, s', b)
    ensures Rows(s, b) <= Rows(s', b)
  {
    hide Bound, Observe;
    if read.Some? { ReadingFrame(s, b, read.value); }
  }

  lemma AcceptsRow(s: Shop, b: nat, x: nat)
    requires Accepts(s, b, x)
    ensures Rows(Observe(s, b, x).0, b) == Rows(s, b) + [UsageRow(Accepted, x, x - Mark(s, b))]
  {
    hide Observe;
    MeterMoves(s, b, x);
  }

  lemma AcceptedLater(rows: seq<UsageRow>, more: seq<UsageRow>, n: nat, from: int, to: int)
    requires AcceptedAfter(rows, n, from, to) && rows <= more
    ensures AcceptedAfter(more, n, from, to)
  {
    var i :| n <= i < |rows| && rows[i] == UsageRow(Accepted, to, to - from);
    assert more[i] == rows[i];
  }

  /** What was filed by settled readings only belongs to pairs accepted since. */
  lemma {:induction false} SettledGain(trace: seq<Shop>, kept: seq<Option<nat>>, b: nat, j: nat, k: nat, from: int, to: int, c: nat)
    requires UsageRun(trace, kept, b) && j <= k < |trace| && SettledSince(trace, kept, b, j, k)
    requires OnFile(trace[k].books.journal, b, from, to, c) && !OnFile(trace[j].books.journal, b, from, to, c)
    ensures Rows(trace[j], b) <= Rows(trace[k], b) && AcceptedAfter(Rows(trace[k], b), |Rows(trace[j], b)|, from, to)
    decreases k
  {
    hide Blank, Observe, Bound, Prefixed, OnFile, AcceptedAfter, Reach, Rows, Mark, ChainOf;
    if j < k {
      var s, s' := trace[k - 1], trace[k];
      assert Moves(s, kept[k - 1], s', b);
      RowsGrow(s, kept[k - 1], s', b);
      RowsGrowAll(trace, kept, b, j, k - 1);
      if OnFile(s.books.journal, b, from, to, c) {
        SettledGain(trace, kept, b, j, k - 1, from, to, c);
        AcceptedLater(Rows(s, b), Rows(s', b), |Rows(trace[j], b)|, from, to);
      } else {
        RunPrefixed(trace, kept, b, k - 1);
        PrefixedIsBound(s, b);
        if kept[k - 1].Some? {
          var x := kept[k - 1].value;
          FiledBy(s, b, x, from, to, c);
          ReachAbove(s, b, x);
          AcceptsRow(s, b, x);
          assert AcceptedAfter(Rows(s', b), |Rows(trace[j], b)|, from, to) by {
            LastRow(Rows(s, b), Rows(s', b), |Rows(trace[j], b)|, from, to);
          }
        } else {
          ElsewhereFiles(s, s', b, from, to, c);
        }
      }
    }
  }

  lemma LastRow(rows: seq<UsageRow>, more: seq<UsageRow>, n: nat, from: int, to: int)
    requires more == rows + [UsageRow(Accepted, to, to - from)] && n <= |rows|
    ensures AcceptedAfter(more, n, from, to)
  {
    assert more[|rows|] == UsageRow(Accepted, to, to - from);
  }

  lemma {:induction false} RowsGrowAll(trace: seq<Shop>, kept: seq<Option<nat>>, b: nat, j: nat, k: nat)
    requires UsageRun(trace, kept, b) && j <= k < |trace|
    ensures Rows(trace[j], b) <= Rows(trace[k], b)
    decreases k
  {
    hide Blank, Observe, Rows, Elsewhere;
    if j < k {
      RowsGrowAll(trace, kept, b, j, k - 1);
      assert Moves(trace[k - 1], kept[k - 1], trace[k], b);
      RowsGrow(trace[k - 1], kept[k - 1], trace[k], b);
    }
  }

  /** If every kept reading of a run was settled, a level is on file for a pair of readings exactly when the pair was accepted. */
  lemma SettledOnFileIff(trace: seq<Shop>, kept: seq<Option<nat>>, b: nat, k: nat, from: int, to: int, level: nat)
    requires UsageRun(trace, kept, b) && k < |trace| && SettledSince(trace, kept, b, 0, k) && level < |ChainOf(trace[k], b)|
    ensures OnFile(trace[k].books.journal, b, from, to, ChainOf(trace[k], b)[level].child)
       <==> AcceptedSpan(Rows(trace[k], b), from, to)
  {
    hide Bound, ChainOf, OnFile, SettledSince, UsageRun;
    var c := ChainOf(trace[k], b)[level].child;
    RunPrefixed(trace, kept, b, k);
    assert PairOk(trace[k], b, from, to);
    if OnFile(trace[k].books.journal, b, from, to, c) {
      NothingBefore(trace, kept, b, from, to, c);
      SettledGain(trace, kept, b, 0, k, from, to, c);
    }
  }

  lemma ChargeOnFile(journal: seq<Tx>, i: nat, b: nat, c: nat)
    requires i < |journal| && IsCharge(journal[i], b, c)
    ensures OnFile(journal, b, journal[i].key.from, journal[i].key.to, c)
  {
    assert journal[i].key == UsageKey(b, journal[i].key.from, journal[i].key.to, c);
  }

  /** A charge that the epoch added, all its kept readings being settled, is for one of its growths. */
  lemma GainIsGrowth(trace: seq<Shop>, kept: seq<Option<nat>>, b: nat, j: nat, k: nat, c: nat, gain: seq<Tx>, i: nat)
    requires UsageRun(trace, kept, b) && EpochFrom(trace, b, j, k) && SettledSince(trace, kept, b, j, k)
    requires trace[k].books.journal == trace[j].books.journal + gain && i < |gain| && IsCharge(gain[i], b, c)
    ensures (gain[i].key.from, gain[i].key.to) in EpochGrowths(trace[k], b)
  {
    hide UsageRun, Prefixed, Bound, OnFile, SettledSince, Growths, Spans, UniqueKeys, IsCharge;
    var before, now := trace[j].books.journal, trace[k].books.journal;
    LengthOfRun(trace, kept, b);
    RunPrefixed(trace, kept, b, k);
    UniqueOf(trace[k], b);
    assert now[|before| + i] == gain[i];
    ChargeOnFile(now, |before| + i, b, c);
    NotBefore(before, gain, i, b, c);
    ChargeIsUsage(gain[i], b, c);
    var from, to := gain[i].key.from, gain[i].key.to;
    SettledGain(trace, kept, b, j, k, from, to, c);
    PairIsPositive(trace[k], b, from, to, c);
    LaterIsGrowth(Rows(trace[k], b), |Rows(trace[j], b)|, from, to);
  }

  lemma ChargeIsUsage(t: Tx, b: nat, c: nat)
    requires IsCharge(t, b, c)
    ensures t.key.UsageKey?
  {}

  /** Then nothing was charged in the epoch for a reading that was not accepted in it. */
  lemma SettledAbandonsNothing(trace: seq<Shop>, kept: seq<Option<nat>>, b: nat, j: nat, k: nat, level: nat)
    requires UsageRun(trace, kept, b) && EpochFrom(trace, b, j, k) && SettledSince(trace, kept, b, j, k)
    requires level < |ChainOf(trace[k], b)| && trace[j].books.journal <= trace[k].books.journal
    ensures Abandoned(Gain(trace, j, k), b, ChainOf(trace[k], b)[level].child, EpochGrowths(trace[k], b)) == 0
  {
    hide UsageRun, Prefixed, EpochFrom, SettledSince, EpochGrowths, Abandoned, ChainOf, TwoSided;
    EpochOrder(trace, b, j, k);
    var c, gs, gain := ChainOf(trace[k], b)[level].child, EpochGrowths(trace[k], b), Gain(trace, j, k);
    var before, now := trace[j].books.journal, trace[k].books.journal;
    assert now == before + gain;
    RunPrefixed(trace, kept, b, k);
    TwoSidedOf(trace[k], b);
    assert forall i :: 0 <= i < |gain| ==> gain[i] == now[|before| + i];
    AbandonedIsZeroIff(gain, b, c, gs);
    forall i | 0 <= i < |gain| && IsCharge(gain[i], b, c) ensures (gain[i].key.from, gain[i].key.to) in gs {
      GainIsGrowth(trace, kept, b, j, k, c, gain, i);
    }
  }

  lemma NotBefore(before: seq<Tx>, gain: seq<Tx>, i: nat, b: nat, c: nat)
    requires UniqueKeys(before + gain) && i < |gain| && IsCharge(gain[i], b, c)
    ensures !OnFile(before, b, gain[i].key.from, gain[i].key.to, c)
  {
    var key := gain[i].key;
    assert key == UsageKey(b, key.from, key.to, c);
    forall n | 0 <= n < |before| ensures before[n].key != key {
      assert (before + gain)[n] == before[n] && (before + gain)[|before| + i] == gain[i];
    }
  }

  lemma PairIsPositive(s: Shop, b: nat, from: int, to: int, c: nat)
    requires Prefixed(s, b) && OnFile(s.books.journal, b, from, to, c)
    ensures from < to
  {
    hide Bound, OnFile, AcceptedSpan, ChainOf;
    assert PairOk(s, b, from, to);
  }

  lemma LaterIsGrowth(rows: seq<UsageRow>, n: nat, from: int, to: int)
    requires AcceptedAfter(rows, n, from, to) && from < to && forall i :: n <= i < |rows| ==> !Rebases(rows[i])
    ensures (from, to) in Growths(Spans(rows))
  {
    hide Growths, Spans, Rebases;
    var i :| n <= i < |rows| && rows[i] == UsageRow(Accepted, to, to - from);
    RowIsSpan(rows, i);
    GrowthsIn(Spans(rows), (from, to));
  }

  /**
   If every reading kept in an epoch was settled and none of its growths was on file before it began, each
   level was charged in the epoch what its bytes would cost at once, up to n / 2 rials.
   */
  lemma SettledEpochDrift(trace: seq<Shop>, kept: seq<Option<nat>>, b: nat, coef: int, j: nat, k: nat, level: nat, whole: nat)
    requires UsageRun(trace, kept, b) && EpochFrom(trace, b, j, k) && Steady(trace, b, coef, j, k)
    requires SettledSince(trace, kept, b, j, k)
    requires MeterOf(trace[k], b).checkpoint.Some? && level < |ChainOf(trace[k], b)|
    requires NoneOnFile(trace[j].books.journal, b, ChainOf(trace[k], b)[level].child, EpochGrowths(trace[k], b))
    requires var total, rate := Mark(trace[k], b) - Base(Rows(trace[k], b)), ChainOf(trace[k], b)[level].rate;
             PriceUsage(total, rate, coef) == Ok(whole) && total * rate * coef < LIMIT
    ensures trace[j].books.journal <= trace[k].books.journal
    ensures var paid, n := LevelPaid(Gain(trace, j, k), b, ChainOf(trace[k], b)[level].child), |EpochGrowths(trace[k], b)|;
            -(n as int) <= 2 * (paid - whole) <= n
  {
    hide PriceUsage, UsageRun, EpochFrom, EpochGrowths, ChainOf, LevelBill, LevelPaid, Abandoned, Mark, Base, Steady, SettledSince,
         OnFile, PricedLevel, PricedSince, Prefixed, UniqueKeys, Bound;
    EpochOrder(trace, b, j, k);
    var s, e, gs := trace[k], ChainOf(trace[k], b)[level], EpochGrowths(trace[k], b);
    JournalGrows(trace, kept, b, j, k);
    RunPrefixed(trace, kept, b, k);
    RunPrefixed(trace, kept, b, j);
    PrefixedIsBound(s, b);
    RunPriced(trace, kept, b, coef, j, k);
    EpochJoined(s, b);
    forall g | g in gs ensures g.0 < g.1 && PricedLevel(s.books.journal, b, g.0, g.1, e, coef) {
      var i :| 0 <= i < |gs| && gs[i] == g;
      GrowthsPriced(trace[j].books.journal, s, b, coef, level, g);
    }
    BillNear(s.books.journal, b, e, coef, gs, whole);
    UniqueOf(s, b);
    assert s.books.journal == trace[j].books.journal + Gain(trace, j, k);
    GainedForSpans(trace[j].books.journal, Gain(trace, j, k), b, e.child, gs);
    TwoSidedOf(trace[j], b);
    BillIsZeroIff(trace[j].books.journal, b, e.child, gs);
    SettledAbandonsNothing(trace, kept, b, j, k, level);
  }

  // ---- the first epoch ----

  /** Until its first reading nothing is charged for the binding. */
  lemma {:induction false} BlankUntilRead(trace: seq<Shop>, kept: seq<Option<nat>>, b: nat, k: nat)
    requires UsageRun(trace, kept, b) && k < |trace| && Rows(trace[k], b) == []
    ensures MeterOf(trace[k], b).checkpoint == None
    ensures forall from, to, c: nat :: !OnFile(trace[k].books.journal, b, from, to, c)
    decreases k
  {
    hide Observe, Bound, Prefixed, Elsewhere;
    if k == 0 {
      forall from, to, c: nat ensures !OnFile(trace[0].books.journal, b, from, to, c) {}
    } else {
      var s := trace[k - 1];
      assert Moves(s, kept[k - 1], trace[k], b);
      RowsGrow(s, kept[k - 1], trace[k], b);
      BlankUntilRead(trace, kept, b, k - 1);
      RunPrefixed(trace, kept, b, k - 1);
      PrefixedIsBound(s, b);
      match kept[k - 1] {
        case Some(x) =>
          BoundIn(s, b);
          MeterMoves(s, b, x);
        case None =>
          forall from, to, c: nat ensures !OnFile(trace[k].books.journal, b, from, to, c) {
            ElsewhereFiles(s, trace[k], b, from, to, c);
          }
          ElsewhereMeter(s, trace[k], b);
      }
    }
  }

  lemma ElsewhereMeter(s: Shop, s': Shop, b: nat)
    requires Elsewhere(s, s', b)
    ensures MeterOf(s', b) == MeterOf(s, b)
  {}

  /** When the first epoch begins nothing is on file for the binding. */
  lemma FirstEpochIsClean(trace: seq<Shop>, kept: seq<Option<nat>>, b: nat, j: nat, k: nat, from: int, to: int, c: nat)
    requires UsageRun(trace, kept, b) && EpochFrom(trace, b, j, k) && FirstEpoch(Rows(trace[k], b))
    ensures !OnFile(trace[j].books.journal, b, from, to, c)
  {
    hide Observe, Bound, Prefixed, Elsewhere, Blank, OnFile, Reach;
    var s := trace[j - 1];
    assert Moves(s, kept[j - 1], trace[j], b);
    assert Rows(s, b) == [] by {
      assert Rows(trace[k], b)[|Rows(trace[j], b)| - 1] == Rows(trace[j], b)[|Rows(trace[j], b)| - 1];
    }
    BlankUntilRead(trace, kept, b, j - 1);
    RunPrefixed(trace, kept, b, j - 1);
    PrefixedIsBound(s, b);
    if kept[j - 1].Some? {
      FiledBy(s, b, kept[j - 1].value, from, to, c);
      ReachAbove(s, b, kept[j - 1].value);
    } else {
      ElsewhereFiles(s, trace[j], b, from, to, c);
    }
  }

  /** In the first epoch, if every reading kept was settled, the n / 2 bound holds without further conditions. */
  lemma FirstEpochDrift(trace: seq<Shop>, kept: seq<Option<nat>>, b: nat, coef: int, j: nat, k: nat, level: nat, whole: nat)
    requires UsageRun(trace, kept, b) && EpochFrom(trace, b, j, k) && FirstEpoch(Rows(trace[k], b)) && Steady(trace, b, coef, j, k)
    requires SettledSince(trace, kept, b, j, k)
    requires MeterOf(trace[k], b).checkpoint.Some? && level < |ChainOf(trace[k], b)|
    requires var total, rate := Mark(trace[k], b) - Base(Rows(trace[k], b)), ChainOf(trace[k], b)[level].rate;
             PriceUsage(total, rate, coef) == Ok(whole) && total * rate * coef < LIMIT
    ensures trace[j].books.journal <= trace[k].books.journal
    ensures var paid, n := LevelPaid(Gain(trace, j, k), b, ChainOf(trace[k], b)[level].child), |EpochGrowths(trace[k], b)|;
            -(n as int) <= 2 * (paid - whole) <= n
  {
    hide PriceUsage, UsageRun, EpochFrom, EpochGrowths, ChainOf, LevelPaid, Mark, Base, Steady, SettledSince, OnFile, FirstEpoch;
    EpochOrder(trace, b, j, k);
    var c, gs := ChainOf(trace[k], b)[level].child, EpochGrowths(trace[k], b);
    forall i | 0 <= i < |gs| ensures !OnFile(trace[j].books.journal, b, gs[i].0, gs[i].1, c) {
      FirstEpochIsClean(trace, kept, b, j, k, gs[i].0, gs[i].1, c);
    }
    SettledEpochDrift(trace, kept, b, coef, j, k, level, whole);
  }
}
