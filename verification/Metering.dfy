/**
 Readings of a panel counter (src/control_plane/app.py:324-352) and the three ways they enter:
 one at a time with a rollback on failure (src/control_plane/api.py:86-90, worker.py:25-27), and
 in a batch that keeps what an interrupted settlement has already paid (src/control_plane/api.py:92-102).
 */
module Metering {
  import opened Options
  import opened Sums
  import opened Ledger
  import opened Pricing
  import opened Resellers
  import opened Settlement

  /** How many lower readings in a row confirm a reset. A setting below one acts like one. */
  const RESET_CONFIRM_READINGS: Positive

  datatype Status = Baseline | Regression | ResetBaseline | Accepted

  datatype UsageRow = UsageRow(status: Status, lifetime: int, delta: int)

  datatype Checkpoint = Checkpoint(lifetime: int, anomalies: nat)

  /** The checkpoint of a binding and its observations in order. */
  datatype Meter = Meter(checkpoint: Option<Checkpoint>, rows: seq<UsageRow>)

  datatype Binding = Binding(org: nat, panel: nat)

  /** Everything `observe` reads or writes; `coefs` are the panel coefficients times SCALE. */
  datatype Shop = Shop(books: Books, tree: Tree, bindings: map<nat, Binding>, coefs: map<nat, int>, meters: map<nat, Meter>)

  datatype Fault = NoBinding | BrokenChain(chain: ChainError) | BadPrice(price: PriceError) | Declined(why: Refusal)

  datatype Observation = Settled(charges: seq<Charge>) | Hold(pending: int) | Failed(fault: Fault)

  // ---- observe ----

  function MeterOf(s: Shop, b: nat): Meter {
    if b in s.meters then s.meters[b] else Meter(None, [])
  }

  /** A missing or zero coefficient counts as one. */
  function Coefficient(coefs: map<nat, int>, panel: nat): int {
    if panel in coefs && coefs[panel] != 0 then coefs[panel] else SCALE
  }

  /** A reading below the checkpoint: noted, and after enough of them in a row taken as the new baseline. */
  function Regress(m: Meter, cp: Checkpoint, x: int): Meter {
    var noted := m.rows + [UsageRow(Regression, x, 0)];
    if cp.anomalies + 1 >= RESET_CONFIRM_READINGS
    then Meter(Some(Checkpoint(x, 0)), noted + [UsageRow(ResetBaseline, x, 0)])
    else Meter(Some(Checkpoint(cp.lifetime, cp.anomalies + 1)), noted)
  }

  datatype Plan = Planned(charges: seq<Charge>) | NotPlanned(fault: Fault)

  function PlanFor(s: Shop, binding: Binding, delta: int): Plan {
    match Edges(s.tree, binding.org)
    case Broken(e) => NotPlanned(BrokenChain(e))
    case Chain(es) =>
      match Cascade(delta, es, Coefficient(s.coefs, binding.panel))
      case Err(e) => NotPlanned(BadPrice(e))
      case Ok(charges) => Planned(charges)
  }

  function Accept(m: Meter, cp: Checkpoint, x: int): Meter {
    Meter(Some(Checkpoint(x, 0)), m.rows + [UsageRow(Accepted, x, x - cp.lifetime)])
  }

  /** observe. On Hold and Failed the returned state is the uncommitted one; the caller decides its fate. */
  function Observe(s: Shop, b: nat, x: nat): (Shop, Observation) {
    if b !in s.bindings then (s, Failed(NoBinding))
    else
      var m := MeterOf(s, b);
      match m.checkpoint
      case None => (s.(meters := s.meters[b := Meter(Some(Checkpoint(x, 0)), m.rows + [UsageRow(Baseline, x, 0)])]), Settled([]))
      case Some(cp) =>
        if x < cp.lifetime then (s.(meters := s.meters[b := Regress(m, cp, x)]), Settled([]))
        else
          match PlanFor(s, s.bindings[b], x - cp.lifetime)
          case NotPlanned(f) => (s, Failed(f))
          case Planned(charges) =>
            var (books, how) := Settle(s.books, s.tree.orgs, b, cp.lifetime, x, charges, 0);
            match how
            case Short(pending) => (s.(books := books), Hold(pending))
            case Stopped(why) => (s.(books := books), Failed(Declined(why)))
            case Paid => (s.(books := books, meters := s.meters[b := Accept(m, cp, x)]), Settled(charges))
  }

  /** usage and the polling worker: whatever is not settled is rolled back. */
  function UsageOnce(s: Shop, b: nat, x: nat): Shop {
    var (after, o) := Observe(s, b, x);
    if o.Settled? then after else s
  }

  /** Whether the transfer loop gets to a flush: past a charge that is positive and not on file yet. */
  predicate Flushes(journal: seq<Tx>, b: nat, from: int, to: int, rows: seq<Charge>)
    decreases |rows|
  {
    rows != [] && rows[0].amount > 0
    && (!Has(journal, ChargeKey(b, from, to, rows[0])) || Flushes(journal, b, from, to, rows[1..]))
  }

  /** The bindings whose first checkpoint the request has made but not sent to the database, after one more reading. */
  function Unsent(s: Shop, b: nat, x: nat, unsent: set<nat>): set<nat> {
    if b !in s.bindings then unsent
    else
      match MeterOf(s, b).checkpoint
      case None => unsent + {b}
      case Some(cp) =>
        if x < cp.lifetime then unsent
        else
          match PlanFor(s, s.bindings[b], x - cp.lifetime)
          case NotPlanned(_) => unsent
          case Planned(charges) => if Flushes(s.books.journal, b, cp.lifetime, x, charges) then {} else unsent
  }

  /**
   usage_batch: a hold is recorded and the batch goes on without a rollback; any other failure loses
   the batch. So does a second reading of a binding whose first checkpoint has not been sent yet: the
   sessions do not flush before queries, so it is inserted twice.
   */
  function BatchFrom(s: Shop, items: seq<(nat, nat)>, unsent: set<nat>): Option<Shop>
    decreases |items|
  {
    if items == [] then Some(s)
    else
      var (b, x) := items[0];
      var (after, o) := Observe(s, b, x);
      if o.Failed? || b in unsent then None else BatchFrom(after, items[1..], Unsent(s, b, x, unsent))
  }

  function Batch(s: Shop, items: seq<(nat, nat)>): Option<Shop> {
    BatchFrom(s, items, {})
  }

  /** The shop after these readings, each kept whatever it ended in. */
  function AfterItems(s: Shop, items: seq<(nat, nat)>): Shop {
    if items == [] then s
    else
      var n := |items| - 1;
      Observe(AfterItems(s, items[..n]), items[n].0, items[n].1).0
  }

  /** What the k-th reading ends in when the ones before it are kept. */
  function Answer(s: Shop, items: seq<(nat, nat)>, k: nat): Observation
    requires k < |items|
  {
    Observe(AfterItems(s, items[..k]), items[k].0, items[k].1).1
  }

  /** How many of the readings settle, and how many are held. */
  function SettledItems(s: Shop, items: seq<(nat, nat)>): nat {
    if items == [] then 0
    else SettledItems(s, items[..|items| - 1]) + (if Answer(s, items, |items| - 1).Settled? then 1 else 0)
  }

  function HeldItems(s: Shop, items: seq<(nat, nat)>): nat {
    if items == [] then 0
    else HeldItems(s, items[..|items| - 1]) + (if Answer(s, items, |items| - 1).Hold? then 1 else 0)
  }

  /** The readings of one polling round, each settled or rolled back on its own. */
  function Polled(s: Shop, readings: seq<(nat, nat)>): Shop
    decreases |readings|
  {
    if readings == [] then s else Polled(UsageOnce(s, readings[0].0, readings[0].1), readings[1..])
  }

  // ---- what the observations of a meter say ----

  predicate Rebases(r: UsageRow) {
    r.status == Baseline || r.status == ResetBaseline
  }

  /** The lifetime at the last baseline. */
  function Base(rows: seq<UsageRow>): int {
    if rows == [] then 0
    else if Rebases(rows[|rows| - 1]) then rows[|rows| - 1].lifetime
    else Base(rows[..|rows| - 1])
  }

  /** The accepted intervals since the last baseline. */
  function Spans(rows: seq<UsageRow>): seq<(int, int)> {
    if rows == [] then []
    else
      var last, early := rows[|rows| - 1], rows[..|rows| - 1];
      match last.status
      case Accepted => Spans(early) + [(last.lifetime - last.delta, last.lifetime)]
      case Regression => Spans(early)
      case _ => []
  }

  /** The lower readings since anything else was noted. */
  function Lower(rows: seq<UsageRow>): nat {
    if rows == [] || rows[|rows| - 1].status != Regression then 0 else 1 + Lower(rows[..|rows| - 1])
  }

  /** The intervals lead from one lifetime to the other without gap or overlap. */
  predicate Joined(from: int, to: int, spans: seq<(int, int)>)
    decreases |spans|
  {
    if spans == [] then from == to
    else
      var last := spans[|spans| - 1];
      last.1 == to && last.0 <= to && Joined(from, last.0, spans[..|spans| - 1])
  }

  ghost predicate MeterOk(m: Meter) {
    match m.checkpoint
    case None => m.rows == []
    case Some(cp) =>
      && Joined(Base(m.rows), cp.lifetime, Spans(m.rows))
      && cp.anomalies == Lower(m.rows) < RESET_CONFIRM_READINGS
      && ResetsConfirmed(m.rows)
  }

  /** Right before every reset there are exactly RESET_CONFIRM_READINGS lower readings in a row. */
  ghost predicate ResetsConfirmed(rows: seq<UsageRow>) {
    forall k :: 0 <= k < |rows| && rows[k].status == ResetBaseline ==> Lower(rows[..k]) == RESET_CONFIRM_READINGS
  }

  lemma {:induction false} RowAdded(rows: seq<UsageRow>, r: UsageRow)
    ensures Base(rows + [r]) == if Rebases(r) then r.lifetime else Base(rows)
    ensures Spans(rows + [r]) == if r.status == Accepted then Spans(rows) + [(r.lifetime - r.delta, r.lifetime)]
                                 else if r.status == Regression then Spans(rows) else []
    ensures Lower(rows + [r]) == if r.status == Regression then Lower(rows) + 1 else 0
  {
    var all := rows + [r];
    assert all[..|all| - 1] == rows && all[|all| - 1] == r;
  }

  lemma ConfirmedAfter(rows: seq<UsageRow>, r: UsageRow)
    requires ResetsConfirmed(rows) && (r.status == ResetBaseline ==> Lower(rows) == RESET_CONFIRM_READINGS)
    ensures ResetsConfirmed(rows + [r])
  {
    var all := rows + [r];
    forall k | 0 <= k < |all| && all[k].status == ResetBaseline ensures Lower(all[..k]) == RESET_CONFIRM_READINGS {
      assert all[..k] == rows[..k];
      if k == |rows| { assert rows[..k] == rows; }
    }
  }

  lemma RegressKeeps(m: Meter, cp: Checkpoint, x: int)
    requires MeterOk(m) && m.checkpoint == Some(cp)
    ensures MeterOk(Regress(m, cp, x))
  {
    var low, reset := UsageRow(Regression, x, 0), UsageRow(ResetBaseline, x, 0);
    RowAdded(m.rows, low);
    ConfirmedAfter(m.rows, low);
    if cp.anomalies + 1 >= RESET_CONFIRM_READINGS {
      RowAdded(m.rows + [low], reset);
      ConfirmedAfter(m.rows + [low], reset);
    }
  }

  lemma AcceptKeeps(m: Meter, cp: Checkpoint, x: int)
    requires MeterOk(m) && m.checkpoint == Some(cp) && cp.lifetime <= x
    ensures MeterOk(Accept(m, cp, x))
  {
    var row, span := UsageRow(Accepted, x, x - cp.lifetime), (cp.lifetime, x);
    RowAdded(m.rows, row);
    ConfirmedAfter(m.rows, row);
    assert (Spans(m.rows) + [span])[..|Spans(m.rows)|] == Spans(m.rows);
  }

  lemma BaselineKeeps(m: Meter, x: int)
    requires MeterOk(m) && m.checkpoint == None
    ensures MeterOk(Meter(Some(Checkpoint(x, 0)), m.rows + [UsageRow(Baseline, x, 0)]))
  {
    RowAdded(m.rows, UsageRow(Baseline, x, 0));
    ConfirmedAfter(m.rows, UsageRow(Baseline, x, 0));
  }

  /**
   Every reading, whatever becomes of it, keeps the meter: the accepted intervals since the last
   baseline are contiguous and end at the checkpoint, the anomaly count is the number of lower
   readings in a row and stays below the confirmation count, and a reset has exactly that many
   lower readings right before it.
   */
  lemma ObserveKeepsMeter(s: Shop, b: nat, x: nat)
    requires MeterOk(MeterOf(s, b))
    ensures MeterOk(MeterOf(Observe(s, b, x).0, b))
  {
    var m := MeterOf(s, b);
    if m.checkpoint == None {
      BaselineKeeps(m, x);
    } else if x < m.checkpoint.value.lifetime {
      RegressKeeps(m, m.checkpoint.value, x);
    } else {
      AcceptKeeps(m, m.checkpoint.value, x);
    }
  }

  function Widths(spans: seq<(int, int)>): seq<int> {
    seq(|spans|, i requires 0 <= i < |spans| => spans[i].1 - spans[i].0)
  }

  lemma {:induction false} SpansInOrder(from: int, to: int, spans: seq<(int, int)>)
    requires Joined(from, to, spans)
    ensures forall i :: 0 <= i < |spans| ==> from <= spans[i].0 <= spans[i].1 <= to
    ensures forall i, j :: 0 <= i < j < |spans| ==> spans[i].1 <= spans[j].0
    ensures from <= to
    decreases |spans|
  {
    if spans != [] {
      var n := |spans| - 1;
      var early := spans[..n];
      SpansInOrder(from, spans[n].0, early);
      forall i | 0 <= i < n ensures spans[i] == early[i] {}
    }
  }

  /** The accepted intervals are in order and disjoint, and their deltas add up to checkpoint minus baseline. */
  lemma {:induction false} DeltasAddUp(from: int, to: int, spans: seq<(int, int)>)
    requires Joined(from, to, spans)
    ensures Sum(Widths(spans)) == to - from
    ensures forall i :: 0 <= i < |spans| ==> from <= spans[i].0 <= spans[i].1 <= to
    ensures forall i, j :: 0 <= i < j < |spans| ==> spans[i].1 <= spans[j].0
    ensures from <= to
    decreases |spans|
  {
    SpansInOrder(from, to, spans);
    if spans != [] {
      var n := |spans| - 1;
      DeltasAddUp(from, spans[n].0, spans[..n]);
      assert Widths(spans) == Widths(spans[..n]) + [spans[n].1 - spans[n].0];
      SumAppend(Widths(spans[..n]), spans[n].1 - spans[n].0);
    }
  }
}
