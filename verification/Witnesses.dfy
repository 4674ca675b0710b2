/**
 Two runs of the desk, from the empty system on, in which usage is charged wrongly: bytes charged twice
 after a batch kept a held settlement, and bytes charged not at all after a reset.
 */
module Witnesses {
  import opened Options
  import opened Ledger
  import opened Pricing
  import opened Resellers
  import opened Settlement
  import opened Desk
  import opened Histories
  import D = Drift
  import E = Epochs
  import M = Metering
  import R = Runs
  import W = Worlds

  /** Three organizations in a row, rates two and one, credit ten at the leaf, and a binding at the leaf. */
  function Setup(): seq<Act> {
    [CreateRoot(0), CreateChild(0, 0, 2, false), CreateChild(1, 10, 1, false), AddPanel(Some(0), SCALE), Bind(0, 2, 0)]
  }

  function Orgs(): seq<Organization> {
    [Organization(None, true, 0, DEFAULT_DEPTH), Organization(Some(0), true, 0, DEFAULT_DEPTH),
     Organization(Some(1), true, 10, DEFAULT_DEPTH)]
  }

  function Contracts(): map<nat, Contract> {
    map[1 := Contract(0, 2, true), 2 := Contract(1, 1, true)]
  }

  /** The parts of the shop that no request of these runs changes. */
  predicate Furnished(s: M.Shop) {
    && s.tree.orgs == Orgs() && s.tree.contracts == Contracts()
    && s.bindings == map[0 := M.Binding(2, 0)] && s.coefs == map[0 := SCALE]
  }

  function Accounts(root: int, middle: int, leaf: int): map<Owner, int> {
    map[Org(0) := root, Org(1) := middle, Org(2) := leaf]
  }

  lemma FirstOne()
    ensures var w := After(Setup()[..1]);
            && w.shop.tree.orgs == Orgs()[..1] && w.shop.tree.contracts == map[]
            && w.shop.books == Books(map[Org(0) := 0], []) && w == Desk.Empty().(shop := w.shop)
            && w.shop.meters == map[] && w.shop.bindings == map[] && w.shop.coefs == map[]
  {
    var acts := Setup();
    assert After([]) == Desk.Empty();
    hide CopiedRows, After, DepthAllowed, AddChild;
    AfterNext([], acts[0]);
    assert acts[..1] == [] + [acts[0]];
  }

  lemma FirstTwo()
    ensures var w := After(Setup()[..2]);
            && w.shop.tree.orgs == Orgs()[..2] && w.shop.tree.contracts == map[1 := Contract(0, 2, true)]
            && w.shop.books == Books(map[Org(0) := 0, Org(1) := 0], []) && w == Desk.Empty().(shop := w.shop)
            && w.shop.meters == map[] && w.shop.bindings == map[] && w.shop.coefs == map[]
  {
    hide CopiedRows, After, DepthAllowed;
    FirstOne();
    var acts := Setup();
    assert acts[..2] == acts[..1] + [acts[1]];
    AfterNext(acts[..1], acts[1]);
  }

  lemma FirstThree()
    ensures var w := After(Setup()[..3]);
            && w.shop.tree.orgs == Orgs() && w.shop.tree.contracts == Contracts()
            && w.shop.books == Books(Accounts(0, 0, 0), []) && w == Desk.Empty().(shop := w.shop)
            && w.shop.meters == map[] && w.shop.bindings == map[] && w.shop.coefs == map[]
  {
    hide CopiedRows, After, DepthAllowed;
    FirstTwo();
    var acts := Setup();
    assert acts[..3] == acts[..2] + [acts[2]];
    AfterNext(acts[..2], acts[2]);
  }

  lemma AfterSetup()
    ensures Furnished(After(Setup()).shop)
    ensures After(Setup()).shop.books == Books(Accounts(0, 0, 0), []) && After(Setup()).shop.meters == map[]
  {
    AfterFour();
    hide CopiedRows, AddChild, AddRoot, Transfer, After;
    var acts := Setup();
    AfterNext(acts[..4], acts[4]);
    assert acts == acts[..4] + [acts[4]];
  }

  lemma AfterFour()
    ensures var w := After(Setup()[..4]);
            && w.shop.tree.orgs == Orgs() && w.shop.tree.contracts == Contracts()
            && w.shop.books == Books(Accounts(0, 0, 0), [])
            && w.shop.meters == map[] && w.shop.bindings == map[] && w.shop.coefs == map[0 := SCALE]
            && 0 in w.catalog.panels
  {
    FirstThree();
    hide CopiedRows, AddChild, AddRoot, Transfer, After;
    var acts := Setup();
    AfterNext(acts[..3], acts[3]);
    assert acts[..4] == acts[..3] + [acts[3]];
  }

  // ---- prices ----

  lemma Price(u: nat, rate: nat)
    requires u <= 2 && rate <= 2
    ensures PriceUsage(u * GIB, rate, SCALE) == Ok(u * rate)
  {
    hide PriceUsage;
    ExactPrice(u * GIB, rate, SCALE);
  }

  function Rows(u: nat): seq<Charge> {
    [Charge(2, 1, u * GIB, 1, u), Charge(1, 0, u * GIB, 2, 2 * u)]
  }

  lemma Chained(s: M.Shop)
    requires Furnished(s)
    ensures Edges(s.tree, 2) == Chain([Edge(2, 1, 1), Edge(1, 0, 2)])
  {
    assert EdgesFrom(s.tree, 0, {2, 1}) == Chain([]);
    assert EdgesFrom(s.tree, 1, {2}) == Chain([Edge(1, 0, 2)]) by { assert {2} + {1} == {2, 1}; }
    assert {} + {2} == {2};
    assert EdgesFrom(s.tree, 2, {}) == Chain([Edge(2, 1, 1)] + [Edge(1, 0, 2)]);
  }

  lemma Plan(s: M.Shop, u: nat)
    requires Furnished(s) && 1 <= u <= 2
    ensures M.PlanFor(s, s.bindings[0], u * GIB) == M.Planned(Rows(u))
  {
    hide PriceUsage, Edges;
    Chained(s);
    Price(u, 1);
    Price(u, 2);
    var es := [Edge(2, 1, 1), Edge(1, 0, 2)];
    var last, none: seq<Charge> := es[1..], [];
    assert last[0] == Edge(1, 0, 2) && last[1..] == [];
    assert [Rows(u)[1]] + none == [Rows(u)[1]];
    assert Cascade(u * GIB, last[1..], SCALE) == Ok(none);
    assert Cascade(u * GIB, es[1..], SCALE) == Ok([Rows(u)[1]]);
    assert Cascade(u * GIB, es, SCALE) == Ok([Rows(u)[0]] + [Rows(u)[1]]);
    assert [Rows(u)[0]] + [Rows(u)[1]] == Rows(u);
  }

  // ---- payments ----

  /** The two transfers of a reading, when both levels can pay. */
  lemma BothPay(books: Books, u: nat, root: int, middle: int, leaf: int)
    requires || books.accounts == Accounts(root, middle, leaf)[System := Balance(books, System)]
             || books.accounts == Accounts(root, middle, leaf)
    requires 1 <= u <= 2 && leaf + 10 >= u && middle + u >= 2 * u
    requires !Has(books.journal, UsageKey(0, 0, u * GIB, 2)) && !Has(books.journal, UsageKey(0, 0, u * GIB, 1))
    ensures var (after, how) := Settle(books, Orgs(), 0, 0, u * GIB, Rows(u), 0);
            && how == Paid && after.journal == books.journal + ChargeTxs(0, 0, u * GIB, Rows(u))
            && Balance(after, Org(1)) == middle - u && Balance(after, Org(2)) == leaf - u
  {
    hide Transfer, Has;
    var rows := Rows(u);
    assert Linked(rows);
    forall i | 0 <= i < 2 ensures LevelPays(books, Orgs(), rows, i) {}
    forall i | 0 <= i < 2 ensures !Has(books.journal, ChargeKey(0, 0, u * GIB, rows[i])) {}
    SettlesIff(books, Orgs(), 0, 0, u * GIB, rows, 0);
    SettleEffect(books, Orgs(), 0, 0, u * GIB, rows, 0);
    MovedAt(rows, 0);
    MovedAt(rows, 1);
  }

  /** With an empty wallet in the middle, the leaf pays one rial and the middle cannot pay two. */
  lemma LeafPaysAlone()
    ensures Settle(Books(Accounts(0, 0, 0), []), Orgs(), 0, 0, GIB, Rows(1), 0)
         == (Books(Accounts(0, 1, -1), [ChargeTx(0, 0, GIB, Rows(1)[0])]), Short(1))
  {
    var books, rows := Books(Accounts(0, 0, 0), []), Rows(1);
    var after := Books(Accounts(0, 1, -1), [ChargeTx(0, 0, GIB, rows[0])]);
    assert !Has(books.journal, ChargeKey(0, 0, GIB, rows[0])) && OpenBoth(books, Org(2), Org(1)) == books;
    assert Permit(Orgs(), Org(2), 0, 1, true) == Posted;
    assert books.journal + [ChargeTx(0, 0, GIB, rows[0])] == after.journal;
    assert Post(books, Org(2), Org(1), 1, ChargeKey(0, 0, GIB, rows[0])).accounts == after.accounts;
    assert Transfer(books, Orgs(), Org(2), Org(1), 1, ChargeKey(0, 0, GIB, rows[0]), true) == (after, Posted);
    assert rows[1..] == [rows[1]];
    assert !Has(after.journal, ChargeKey(0, 0, GIB, rows[1]));
    assert OpenBoth(after, Org(1), Org(0)) == after && Permit(Orgs(), Org(1), 1, 2, true) == Refused(NoCredit);
    assert Transfer(after, Orgs(), Org(1), Org(0), 2, ChargeKey(0, 0, GIB, rows[1]), true) == (after, Refused(NoCredit));
  }

  // ---- bytes charged twice ----

  predicate Marked(s: M.Shop, lifetime: int, anomalies: nat) {
    M.MeterOf(s, 0).checkpoint == Some(M.Checkpoint(lifetime, anomalies))
  }

  function Begin(): seq<Act> {
    Setup() + [Usage(0, 0)]
  }

  lemma AfterBegin()
    ensures var s := After(Begin()).shop;
            Furnished(s) && s.books == Books(Accounts(0, 0, 0), []) && Marked(s, 0, 0)
  {
    AfterSetup();
    hide After;
    AfterNext(Setup(), Usage(0, 0));
  }

  function HeldBatch(): seq<Act> {
    Begin() + [UsageBatch([(0, GIB)])]
  }

  lemma ReadingIs(s: M.Shop, u: nat)
    requires Furnished(s) && Marked(s, 0, 0) && 1 <= u <= 2
    ensures var (books, how) := Settle(s.books, Orgs(), 0, 0, u * GIB, Rows(u), 0);
            && (how == Paid ==> M.Observe(s, 0, u * GIB).1.Settled? && M.Observe(s, 0, u * GIB).0.books == books
                                && Furnished(M.Observe(s, 0, u * GIB).0) && Marked(M.Observe(s, 0, u * GIB).0, u * GIB, 0))
            && (how.Short? ==> M.Observe(s, 0, u * GIB) == (s.(books := books), M.Hold(how.pending)))
  {
    hide Settle, M.PlanFor;
    Plan(s, u);
  }

  lemma AfterHeldBatch()
    ensures var s := After(HeldBatch()).shop;
            && Furnished(s) && Marked(s, 0, 0)
            && s.books == Books(Accounts(0, 1, -1), [ChargeTx(0, 0, GIB, Rows(1)[0])])
  {
    AfterBegin();
    hide After, M.Observe, Settle;
    var s := After(Begin()).shop;
    AfterNext(Begin(), UsageBatch([(0, GIB)]));
    LeafPaysAlone();
    assert 1 * GIB == GIB;
    ReadingIs(s, 1);
    var items: seq<(nat, nat)> := [(0, GIB)];
    assert items[1..] == [];
    assert M.BatchFrom(s, items, {}) == Some(M.Observe(s, 0, GIB).0);
  }

  function ToppedUp(): seq<Act> {
    HeldBatch() + [Fund(1, 10, "top up")]
  }

  function TopUpTx(): Tx {
    TransferTx(System, Org(1), 10, ExternalKey("top up"))
  }

  /** Ten rials for the middle. */
  lemma TopUp(books: Books, orgs: seq<Organization>, root: int, middle: int, leaf: int)
    requires books.accounts == Accounts(root, middle, leaf) && !Has(books.journal, ExternalKey("top up"))
    ensures var (after, outcome) := Transfer(books, orgs, System, Org(1), 10, ExternalKey("top up"), false);
            && outcome == Posted && after.journal == books.journal + [TopUpTx()]
            && after.accounts == Accounts(root, middle + 10, leaf)[System := -10]
  {}

  lemma AfterTopUp()
    ensures var s := After(ToppedUp()).shop;
            && Furnished(s) && Marked(s, 0, 0)
            && s.books == Books(Accounts(0, 11, -1)[System := -10], [ChargeTx(0, 0, GIB, Rows(1)[0]), TopUpTx()])
  {
    AfterHeldBatch();
    hide After, Transfer;
    AfterNext(HeldBatch(), Fund(1, 10, "top up"));
    TopUp(After(HeldBatch()).shop.books, Orgs(), 0, 1, -1);
  }

  /**
   One gibibyte read in a batch and held in the middle, a top-up, and then two gibibytes: the leaf is
   charged for the first gibibyte a second time.
   */
  lemma BatchChargesTwice()
    ensures var w := After(ToppedUp() + [Usage(0, 2 * GIB)]);
            && w.shop.books.journal == [ChargeTx(0, 0, GIB, Rows(1)[0]), TopUpTx()] + ChargeTxs(0, 0, 2 * GIB, Rows(2))
            && E.Mark(w.shop, 0) == 2 * GIB
            && E.ChargesFrom(w.shop.books.journal, 0, 0, 2) == 2 && E.ChargesFrom(w.shop.books.journal, 0, 0, 1) == 1
            && Balance(w.shop.books, Org(2)) == -3
  {
    AfterTopUp();
    hide After, M.Observe, Settle, Has;
    var s := After(ToppedUp()).shop;
    AfterNext(ToppedUp(), Usage(0, 2 * GIB));
    NotYet(s.books.journal);
    BothPay(s.books, 2, 0, 11, -1);
    ReadingIs(s, 2);
    TwoAndOne(s.books.journal);
  }

  lemma NotYet(journal: seq<Tx>)
    requires journal == [ChargeTx(0, 0, GIB, Rows(1)[0]), TopUpTx()]
    ensures !Has(journal, UsageKey(0, 0, 2 * GIB, 2)) && !Has(journal, UsageKey(0, 0, 2 * GIB, 1))
  {}

  function Counts(t: Tx, child: nat): nat {
    if t.key.UsageKey? && t.key.binding == 0 && t.key.from == 0 && t.key.child == child then 1 else 0
  }

  lemma TwoAndOne(journal: seq<Tx>)
    requires journal == [ChargeTx(0, 0, GIB, Rows(1)[0]), TopUpTx()]
    ensures E.ChargesFrom(journal + ChargeTxs(0, 0, 2 * GIB, Rows(2)), 0, 0, 2) == 2
    ensures E.ChargesFrom(journal + ChargeTxs(0, 0, 2 * GIB, Rows(2)), 0, 0, 1) == 1
  {
    hide E.ChargesFrom, Has;
    var rows := Rows(2);
    var t0, t1, t2 := ChargeTx(0, 0, GIB, Rows(1)[0]), ChargeTx(0, 0, 2 * GIB, rows[0]), ChargeTx(0, 0, 2 * GIB, rows[1]);
    TwoCharges(2 * GIB, rows);
    assert journal + ChargeTxs(0, 0, 2 * GIB, rows) == ([t0] + [TopUpTx()]) + ([t1] + [t2]);
    FourCounted(t0, TopUpTx(), t1, t2, 2);
    FourCounted(t0, TopUpTx(), t1, t2, 1);
  }

  lemma TwoCharges(x: int, rows: seq<Charge>)
    requires |rows| == 2
    ensures ChargeTxs(0, 0, x, rows) == [ChargeTx(0, 0, x, rows[0])] + [ChargeTx(0, 0, x, rows[1])]
  {
    var none: seq<Tx> := [];
    assert rows[1..] == [rows[1]] && rows[1..][1..] == [];
    assert ChargeTxs(0, 0, x, rows[1..]) == [ChargeTx(0, 0, x, rows[1])] + none == [ChargeTx(0, 0, x, rows[1])];
  }

  lemma FourCounted(t0: Tx, t1: Tx, t2: Tx, t3: Tx, child: nat)
    ensures E.ChargesFrom(([t0] + [t1]) + ([t2] + [t3]), 0, 0, child)
         == Counts(t0, child) + Counts(t1, child) + Counts(t2, child) + Counts(t3, child)
  {
    hide E.ChargesFrom, Counts;
    E.ChargesJoin([t0] + [t1], [t2] + [t3], 0, 0, child);
    E.ChargesJoin([t0], [t1], 0, 0, child);
    E.ChargesJoin([t2], [t3], 0, 0, child);
    OneCounted(t0, child);
    OneCounted(t1, child);
    OneCounted(t2, child);
    OneCounted(t3, child);
  }

  lemma OneCounted(t: Tx, child: nat)
    ensures E.ChargesFrom([t], 0, 0, child) == Counts(t, child)
  {
    assert [t][..0] == [];
  }

  // ---- bytes charged not at all ----

  function Accepted(): seq<Act> {
    Funded() + [Usage(0, GIB)]
  }

  function Funded(): seq<Act> {
    Begin() + [Fund(1, 10, "top up")]
  }

  lemma AfterFunded()
    ensures var s := After(Funded()).shop;
            Furnished(s) && Marked(s, 0, 0) && s.books == Books(Accounts(0, 10, 0)[System := -10], [TopUpTx()])
  {
    AfterBegin();
    hide After, Transfer, Has;
    AfterNext(Begin(), Fund(1, 10, "top up"));
    NothingHas(ExternalKey("top up"));
    TopUp(After(Begin()).shop.books, Orgs(), 0, 0, 0);
  }

  lemma AfterAccepted()
    ensures var s := After(Accepted()).shop;
            && Furnished(s) && Marked(s, GIB, 0) && s.books.journal == [TopUpTx()] + ChargeTxs(0, 0, GIB, Rows(1))
            && E.AcceptedSpan(M.MeterOf(s, 0).rows, 0, GIB)
  {
    AfterFunded();
    hide After, M.Observe, Settle, Transfer, Has;
    var s := After(Funded()).shop;
    AfterNext(Funded(), Usage(0, GIB));
    TopUpOnly(s.books.journal);
    assert 1 * GIB == GIB;
    BothPay(s.books, 1, 0, 10, 0);
    ReadingIs(s, 1);
    E.SpansMove(s, 0, GIB, 0, GIB);
  }

  lemma NothingHas(key: Key)
    ensures !Has([], key)
  {}

  lemma TopUpOnly(journal: seq<Tx>)
    requires journal == [TopUpTx()]
    ensures !Has(journal, UsageKey(0, 0, GIB, 2)) && !Has(journal, UsageKey(0, 0, GIB, 1))
  {}

  function Zeros(n: nat): seq<Act> {
    if n == 0 then [] else Zeros(n - 1) + [Usage(0, 0)]
  }

  /** The counter reads zero until the reset is confirmed. */
  lemma {:induction false} AfterZeros(n: nat)
    requires n <= M.RESET_CONFIRM_READINGS
    ensures var s, was := After(Accepted() + Zeros(n)).shop, After(Accepted()).shop;
            && Furnished(s) && s.books == was.books && M.MeterOf(was, 0).rows <= M.MeterOf(s, 0).rows
            && if n < M.RESET_CONFIRM_READINGS then Marked(s, GIB, n) else Marked(s, 0, 0)
  {
    AfterAccepted();
    hide After;
    if n == 0 {
      assert Accepted() + Zeros(0) == Accepted();
    } else {
      AfterZeros(n - 1);
      assert Accepted() + Zeros(n) == (Accepted() + Zeros(n - 1)) + [Usage(0, 0)];
      AfterNext(Accepted() + Zeros(n - 1), Usage(0, 0));
    }
  }

  function ResetRun(): seq<Act> {
    Accepted() + Zeros(M.RESET_CONFIRM_READINGS) + [Usage(0, GIB)]
  }

  lemma ResetAccepts()
    ensures var at, end := After(Accepted() + Zeros(M.RESET_CONFIRM_READINGS)).shop, After(ResetRun()).shop;
            Furnished(end) && Marked(end, GIB, 0) && end.books == at.books
  {
    AfterAccepted();
    AfterZeros(M.RESET_CONFIRM_READINGS);
    hide After, M.Observe, Settle, Has;
    var s := After(Accepted() + Zeros(M.RESET_CONFIRM_READINGS)).shop;
    AfterNext(Accepted() + Zeros(M.RESET_CONFIRM_READINGS), Usage(0, GIB));
    BothOnFile(s.books.journal);
    assert 1 * GIB == GIB;
    Replays(s.books);
    ReadingIs(s, 1);
  }

  /** What the zero that confirms the reset adds to the meter. */
  lemma AfterConfirmed()
    ensures var n := M.RESET_CONFIRM_READINGS;
            && D.Rows(After(Accepted() + Zeros(n)).shop, 0) == D.Rows(After(Accepted() + Zeros(n - 1)).shop, 0)
                 + [M.UsageRow(M.Regression, 0, 0), M.UsageRow(M.ResetBaseline, 0, 0)]
  {
    var n: nat := M.RESET_CONFIRM_READINGS;
    hide After, Marked, Furnished, Accepted, M.Observe;
    AfterZeros(n - 1);
    AfterZeros(n);
    var early := Accepted() + Zeros(n - 1);
    assert early + [Usage(0, 0)] == Accepted() + Zeros(n);
    Unlike(After(early).shop, After(early + [Usage(0, 0)]).shop, GIB, n - 1, 0, 0);
    ReadingSettled(early, 0);
    ConfirmingRows(After(early).shop);
  }

  lemma ConfirmingRows(s: M.Shop)
    requires Furnished(s) && Marked(s, GIB, M.RESET_CONFIRM_READINGS - 1)
    ensures D.Rows(M.Observe(s, 0, 0).0, 0)
         == D.Rows(s, 0) + [M.UsageRow(M.Regression, 0, 0), M.UsageRow(M.ResetBaseline, 0, 0)]
  {
    hide M.Observe;
    E.MeterMoves(s, 0, 0);
  }

  /** What the gibibyte after the reset adds to the meter. */
  lemma AfterReset()
    ensures D.Rows(After(ResetRun()).shop, 0)
         == D.Rows(After(Accepted() + Zeros(M.RESET_CONFIRM_READINGS)).shop, 0) + [M.UsageRow(M.Accepted, GIB, GIB)]
  {
    var acts := Accepted() + Zeros(M.RESET_CONFIRM_READINGS);
    AfterZeros(M.RESET_CONFIRM_READINGS);
    ResetAccepts();
    assert ResetRun() == acts + [Usage(0, GIB)];
    hide After, M.Observe, Accepted, Zeros, ResetRun;
    ReadingSettled(acts, GIB);
    E.MeterMoves(After(acts).shop, 0, GIB);
  }

  /** A reading that changes anything is settled. */
  lemma ReadingSettled(acts: seq<Act>, x: nat)
    requires After(acts + [Usage(0, x)]).shop != After(acts).shop
    ensures M.Observe(After(acts).shop, 0, x) == (After(acts + [Usage(0, x)]).shop, M.Observe(After(acts).shop, 0, x).1)
    ensures M.Observe(After(acts).shop, 0, x).1.Settled?
  {
    hide After, M.Observe;
    AfterNext(acts, Usage(0, x));
  }

  /** One gibibyte, a confirmed reset to zero, and one gibibyte again: the second one is accepted and moves no money. */
  lemma ResetMakesFree()
    ensures var w, was := After(ResetRun()), After(Accepted());
            && E.Mark(w.shop, 0) == GIB && |M.MeterOf(w.shop, 0).rows| > |M.MeterOf(was.shop, 0).rows|
            && w.shop.books.journal == was.shop.books.journal == [TopUpTx()] + ChargeTxs(0, 0, GIB, Rows(1))
  {
    AfterAccepted();
    AfterZeros(M.RESET_CONFIRM_READINGS);
    ResetAccepts();
    AfterReset();
    hide After;
  }

  lemma BothOnFile(journal: seq<Tx>)
    requires journal == [TopUpTx()] + ChargeTxs(0, 0, GIB, Rows(1))
    ensures Has(journal, ChargeKey(0, 0, GIB, Rows(1)[0])) && Has(journal, ChargeKey(0, 0, GIB, Rows(1)[1]))
  {
    var rows := Rows(1);
    assert rows[1..] == [rows[1]] && rows[1..][1..] == [];
    assert journal[1].key == ChargeKey(0, 0, GIB, rows[0]) && journal[2].key == ChargeKey(0, 0, GIB, rows[1]);
  }

  lemma Replays(books: Books)
    requires Has(books.journal, ChargeKey(0, 0, GIB, Rows(1)[0])) && Has(books.journal, ChargeKey(0, 0, GIB, Rows(1)[1]))
    ensures Settle(books, Orgs(), 0, 0, GIB, Rows(1), 0) == (books, Paid)
  {
    hide Has;
    var rows := Rows(1);
    assert rows[1..] == [rows[1]] && rows[1..][1..] == [];
    ReplayedLevel(books, Orgs(), 0, 0, GIB, rows[0]);
    ReplayedLevel(books, Orgs(), 0, 0, GIB, rows[1]);
  }

  // ---- the laws of Epochs and Drift at these runs ----

  /** A run from the new binding to the state after these requests, the furniture standing. */
  ghost predicate Recorded(trace: seq<M.Shop>, kept: seq<Option<nat>>, acts: seq<Act>) {
    && E.UsageRun(trace, kept, 0) && trace[|kept|] == After(acts).shop
    && forall i :: 0 <= i < |trace| ==> Furnished(trace[i])
  }

  lemma MoveOn(trace: seq<M.Shop>, kept: seq<Option<nat>>, acts: seq<Act>, act: Act, read: Option<nat>)
    requires Recorded(trace, kept, acts)
    requires Furnished(After(acts + [act]).shop) && E.Moves(After(acts).shop, read, After(acts + [act]).shop, 0)
    ensures Recorded(trace + [After(acts + [act]).shop], kept + [read], acts + [act])
  {
    hide After, Furnished, E.Moves, E.Blank;
  }

  lemma ReadOn(trace: seq<M.Shop>, kept: seq<Option<nat>>, acts: seq<Act>, x: nat)
    requires Recorded(trace, kept, acts)
    requires After(acts + [Usage(0, x)]).shop != After(acts).shop && Furnished(After(acts + [Usage(0, x)]).shop)
    ensures Recorded(trace + [After(acts + [Usage(0, x)]).shop], kept + [Some(x)], acts + [Usage(0, x)])
  {
    hide After, Furnished, M.Observe, Recorded;
    ReadingSettled(acts, x);
    MoveOn(trace, kept, acts, Usage(0, x), Some(x));
  }

  lemma FundOn(trace: seq<M.Shop>, kept: seq<Option<nat>>, acts: seq<Act>, org: nat, paid: Positive, text: string)
    requires Recorded(trace, kept, acts)
    requires 0 in After(acts).shop.bindings && Furnished(After(acts + [Fund(org, paid, text)]).shop)
    ensures Recorded(trace + [After(acts + [Fund(org, paid, text)]).shop], kept + [None], acts + [Fund(org, paid, text)])
  {
    hide *;
    var act := Fund(org, paid, text);
    AfterNext(acts, act);
    W.AlwaysOk(acts);
    W.AlwaysOk(acts + [act]);
    R.WorldParts(After(acts));
    R.WorldParts(After(acts + [act]));
    R.OthersUnconcerned(After(acts), act, 0);
    R.StepGrowsTree(After(acts), act);
    R.BindingsStay(After(acts), act, 0);
    R.ElsewhereOf(After(acts).shop, After(acts + [act]).shop, 0);
    ElsewhereMoves(After(acts).shop, After(acts + [act]).shop);
    MoveOn(trace, kept, acts, act, None);
  }

  lemma ElsewhereMoves(s: M.Shop, s': M.Shop)
    requires E.Elsewhere(s, s', 0)
    ensures E.Moves(s, None, s', 0)
  {}

  lemma BoundRun()
    ensures Recorded([After(Setup()).shop], [], Setup())
  {
    AfterFour();
    AfterSetup();
    hide After;
    assert Setup() == Setup()[..4] + [Setup()[4]];
    R.FirstBound(Setup()[..4], Setup()[4], 0);
  }

  lemma FundedRun() returns (trace: seq<M.Shop>, kept: seq<Option<nat>>)
    ensures Recorded(trace, kept, Funded()) && |kept| == 2
  {
    BoundRun();
    AfterSetup();
    AfterBegin();
    AfterFunded();
    hide After, Recorded;
    ReadOn([After(Setup()).shop], [], Setup(), 0);
    FundOn([After(Setup()).shop] + [After(Begin()).shop], [] + [Some(0)], Begin(), 1, 10, "top up");
    trace := [After(Setup()).shop] + [After(Begin()).shop] + [After(Funded()).shop];
    kept := [] + [Some(0)] + [None];
  }

  lemma {:induction false} ZerosRun(n: nat) returns (trace: seq<M.Shop>, kept: seq<Option<nat>>)
    requires n <= M.RESET_CONFIRM_READINGS
    ensures Recorded(trace, kept, Accepted() + Zeros(n)) && |kept| == 3 + n
    ensures n > 0 ==> trace[|kept| - 1] == After(Accepted() + Zeros(n - 1)).shop
  {
    hide After, Recorded, Furnished, Marked;
    if n == 0 {
      trace, kept := FundedRun();
      AfterFunded();
      AfterAccepted();
      RecordedLength(trace, kept, Funded());
      Unlike(After(Funded()).shop, After(Accepted()).shop, 0, 0, GIB, 0);
      ReadOn(trace, kept, Funded(), GIB);
      assert Accepted() + Zeros(0) == Accepted();
      trace, kept := trace + [After(Accepted()).shop], kept + [Some(GIB)];
    } else {
      trace, kept := ZerosRun(n - 1);
      var acts := Accepted() + Zeros(n - 1);
      AfterZeros(n - 1);
      AfterZeros(n);
      RecordedLength(trace, kept, acts);
      assert acts + [Usage(0, 0)] == Accepted() + Zeros(n);
      if n < M.RESET_CONFIRM_READINGS {
        Unlike(After(acts).shop, After(acts + [Usage(0, 0)]).shop, GIB, n - 1, GIB, n);
      } else {
        Unlike(After(acts).shop, After(acts + [Usage(0, 0)]).shop, GIB, n - 1, 0, 0);
      }
      ReadOn(trace, kept, acts, 0);
      trace, kept := trace + [After(acts + [Usage(0, 0)]).shop], kept + [Some(0)];
    }
  }

  lemma RecordedLength(trace: seq<M.Shop>, kept: seq<Option<nat>>, acts: seq<Act>)
    requires Recorded(trace, kept, acts)
    ensures |trace| == |kept| + 1 && trace[|kept|] == After(acts).shop
  {}

  lemma Unlike(s: M.Shop, s': M.Shop, x: int, n: nat, y: int, m: nat)
    requires Marked(s, x, n) && Marked(s', y, m) && (x != y || n != m)
    ensures s != s'
  {}

  lemma RunLonger(trace: seq<M.Shop>, kept: seq<Option<nat>>, x: nat)
    requires E.UsageRun(trace, kept, 0)
    ensures E.UsageRun(trace + [M.Observe(trace[|kept|], 0, x).0], kept + [Some(x)], 0)
  {
    hide M.Observe, E.Elsewhere, E.Blank;
  }

  lemma FirstLevel(s: M.Shop)
    requires Furnished(s)
    ensures E.ChainOf(s, 0) == [Edge(2, 1, 1), Edge(1, 0, 2)]
  {
    Chained(s);
  }

  lemma TwiceRun() returns (trace: seq<M.Shop>, kept: seq<Option<nat>>)
    ensures E.UsageRun(trace, kept, 0) && |trace| == |kept| + 1 && 0 < |kept| && kept[|kept| - 1] == Some(2 * GIB)
    ensures trace[0] == After(Setup()).shop && trace[|kept| - 1] == After(ToppedUp()).shop
    ensures trace[|kept|] == After(ToppedUp() + [Usage(0, 2 * GIB)]).shop
    ensures E.Accepts(trace[|kept| - 1], 0, 2 * GIB)
  {
    hide After, M.Observe, E.UsageRun;
    var u, l := ToppedUpRun();
    AtTwo();
    BatchChargesTwice();
    ReadingSettled(ToppedUp(), 2 * GIB);
    RunLonger(u, l, 2 * GIB);
    trace, kept := u + [After(ToppedUp() + [Usage(0, 2 * GIB)]).shop], l + [Some(2 * GIB)];
  }

  lemma ToppedUpRun() returns (trace: seq<M.Shop>, kept: seq<Option<nat>>)
    ensures E.UsageRun(trace, kept, 0) && |trace| == |kept| + 1
    ensures trace[0] == After(Setup()).shop && trace[|kept|] == After(ToppedUp()).shop
  {
    hide After, E.UsageRun;
    AfterFour();
    AfterSetup();
    var more := [Usage(0, 0), UsageBatch([(0, GIB)]), Fund(1, 10, "top up")];
    assert Setup() == Setup()[..4] + [Setup()[4]];
    assert Setup() + more == ToppedUp();
    trace, kept := R.DeskRunIsUsageRun(Setup()[..4], Setup()[4], more, 0);
    E.LengthOfRun(trace, kept, 0);
  }

  /**
   The law of interrupted settlements at the run of BatchChargesTwice: its two gibibytes are accepted, and
   another reading has paid at the leaf from the same checkpoint, so it was charged twice.
   */
  lemma TwiceByTheLaw() returns (trace: seq<M.Shop>, kept: seq<Option<nat>>, t: nat)
    ensures E.UsageRun(trace, kept, 0) && |trace| == |kept| + 1 && t < |kept| - 1 && kept[|kept| - 1] == Some(2 * GIB)
    ensures trace[|kept|] == After(ToppedUp() + [Usage(0, 2 * GIB)]).shop && E.Accepts(trace[|kept| - 1], 0, 2 * GIB)
    ensures 0 < |E.ChainOf(trace[0], 0)| && E.ChainOf(trace[0], 0)[0].child == 2
    ensures E.PaysAnew(trace, kept, 0, 0, t, 0, 0) && kept[t] != Some(2 * GIB)
  {
    hide After, Furnished, E.UsageRun, E.Accepts, E.ChainOf, E.PaysAt, E.OnFile, E.ChargesFrom;
    trace, kept := TwiceRun();
    AfterSetup();
    FirstLevel(trace[0]);
    AtTwo();
    BatchChargesTwice();
    NothingFiled(trace[0].books.journal);
    E.ChargedOnceIffSameReading(trace, kept, 0, 0, |kept| - 1, 2 * GIB, 0);
    t :| 0 <= t <= |kept| - 1 && E.PaysAnew(trace, kept, 0, 0, t, 0, 0) && kept[t].value != 2 * GIB;
  }

  lemma AtTwo()
    ensures E.Mark(After(ToppedUp()).shop, 0) == 0 && E.Above(After(ToppedUp()).shop, 0, 2 * GIB)
  {
    AfterTopUp();
  }

  lemma NothingFiled(journal: seq<Tx>)
    requires journal == []
    ensures E.ChargesFrom(journal, 0, 0, 2) == 0 && !E.OnFile(journal, 0, 0, 2 * GIB, 2)
  {}

  lemma Steadily(trace: seq<M.Shop>, kept: seq<Option<nat>>, acts: seq<Act>)
    requires Recorded(trace, kept, acts)
    ensures E.UsageRun(trace, kept, 0) && D.Steady(trace, 0, SCALE, 0, |kept|) && Furnished(trace[|kept|])
  {}

  /** The epoch that begins with the reset has one growth so far. */
  lemma OneGrowth(early: seq<M.UsageRow>, at: seq<M.UsageRow>, end: seq<M.UsageRow>)
    requires at == early + [M.UsageRow(M.Regression, 0, 0), M.UsageRow(M.ResetBaseline, 0, 0)]
    requires end == at + [M.UsageRow(M.Accepted, GIB, GIB)]
    ensures early < at <= end && M.Rebases(at[|at| - 1]) && !M.Rebases(end[|at|]) && |end| == |at| + 1
    ensures M.Base(end) == 0 && D.Growths(M.Spans(end)) == [(0, GIB)]
  {
    var noted := early + [M.UsageRow(M.Regression, 0, 0)];
    M.RowAdded(noted, M.UsageRow(M.ResetBaseline, 0, 0));
    assert at == noted + [M.UsageRow(M.ResetBaseline, 0, 0)];
    M.RowAdded(at, M.UsageRow(M.Accepted, GIB, GIB));
    var spans: seq<(int, int)> := [(0, GIB)];
    assert M.Spans(end) == [] + spans == spans && spans[..0] == [];
  }

  lemma EpochAt(trace: seq<M.Shop>, j: nat, k: nat)
    requires 0 < j < k < |trace|
    requires D.Rows(trace[j - 1], 0) < D.Rows(trace[j], 0) <= D.Rows(trace[k], 0)
    requires |D.Rows(trace[k], 0)| == |D.Rows(trace[j], 0)| + 1
    requires M.Rebases(D.Rows(trace[j], 0)[|D.Rows(trace[j], 0)| - 1]) && !M.Rebases(D.Rows(trace[k], 0)[|D.Rows(trace[j], 0)|])
    ensures D.EpochFrom(trace, 0, j, k)
  {}

  /** The interval of the reset run is on file, at one rial, from before the reset. */
  lemma BilledAgain(journal: seq<Tx>)
    requires journal == [TopUpTx()] + ChargeTxs(0, 0, GIB, Rows(1))
    ensures D.LevelBill(journal, 0, 2, [(0, GIB)]) == 1
  {
    var rows := Rows(1);
    assert rows[1..] == [rows[1]] && rows[1..][1..] == [];
    var t, key := ChargeTx(0, 0, GIB, rows[0]), UsageKey(0, 0, GIB, 2);
    assert ChargeTxs(0, 0, GIB, rows) == [t] + ChargeTxs(0, 0, GIB, rows[1..]);
    D.AmountJoin([TopUpTx()], [t] + ChargeTxs(0, 0, GIB, rows[1..]), key);
    D.AmountJoin([t], ChargeTxs(0, 0, GIB, rows[1..]), key);
    D.AmountOfOne(t, key);
    assert t.key == key && D.Amount(t) == 1;
    var spans := [(0, GIB)];
    assert spans[..0] == [];
  }

  lemma WholeResetRun() returns (trace: seq<M.Shop>, kept: seq<Option<nat>>)
    ensures Recorded(trace, kept, ResetRun()) && |trace| == |kept| + 1 && |kept| >= 2
    ensures trace[|kept|] == After(ResetRun()).shop
    ensures trace[|kept| - 1] == After(Accepted() + Zeros(M.RESET_CONFIRM_READINGS)).shop
    ensures trace[|kept| - 2] == After(Accepted() + Zeros(M.RESET_CONFIRM_READINGS - 1)).shop
  {
    hide After, Recorded, Furnished, Marked, Accepted, Zeros;
    var u, l := ZerosRun(M.RESET_CONFIRM_READINGS);
    var acts := Accepted() + Zeros(M.RESET_CONFIRM_READINGS);
    RecordedLength(u, l, acts);
    AfterZeros(M.RESET_CONFIRM_READINGS);
    ResetAccepts();
    Unlike(After(acts).shop, After(ResetRun()).shop, 0, 0, GIB, 0);
    ReadOn(u, l, acts, GIB);
    trace, kept := u + [After(ResetRun()).shop], l + [Some(GIB)];
  }

  /** The epoch that the reset of this run begins. */
  lemma EpochOfReset() returns (trace: seq<M.Shop>, kept: seq<Option<nat>>, j: nat, k: nat)
    ensures 0 < j < k < |trace| && E.UsageRun(trace, kept, 0) && D.EpochFrom(trace, 0, j, k) && D.Steady(trace, 0, SCALE, 0, k)
    ensures trace[k] == After(ResetRun()).shop && trace[j] == After(Accepted() + Zeros(M.RESET_CONFIRM_READINGS)).shop
    ensures Furnished(trace[k]) && M.Base(D.Rows(trace[k], 0)) == 0 && D.EpochGrowths(trace[k], 0) == [(0, GIB)]
  {
    hide After, Recorded, Furnished, E.UsageRun, D.EpochFrom, D.Steady, Accepted, Zeros;
    trace, kept := WholeResetRun();
    j, k := |kept| - 1, |kept|;
    AfterConfirmed();
    AfterReset();
    Steadily(trace, kept, ResetRun());
    OneGrowth(D.Rows(trace[j - 1], 0), D.Rows(trace[j], 0), D.Rows(trace[k], 0));
    EpochAt(trace, j, k);
  }

  /**
   The law of drift at the run of ResetMakesFree: over the epoch after the reset the leaf owes one rial,
   has been charged nothing, and the shortfall is one.
   */
  lemma ShortByTheLaw() returns (trace: seq<M.Shop>, kept: seq<Option<nat>>, j: nat, k: nat)
    ensures j < k < |trace| && E.UsageRun(trace, kept, 0) && D.EpochFrom(trace, 0, j, k) && D.Steady(trace, 0, SCALE, 0, k)
    ensures trace[k] == After(ResetRun()).shop && trace[j].books.journal == trace[k].books.journal
    ensures E.ChainOf(trace[k], 0) == [Edge(2, 1, 1), Edge(1, 0, 2)] && D.EpochGrowths(trace[k], 0) == [(0, GIB)]
    ensures D.LevelBill(trace[j].books.journal, 0, 2, D.EpochGrowths(trace[k], 0)) == 1
    ensures PriceUsage(E.Mark(trace[k], 0) - M.Base(D.Rows(trace[k], 0)), 1, SCALE) == Ok(1)
  {
    hide After, Furnished, PriceUsage, E.UsageRun, D.EpochFrom, D.Steady, D.LevelBill, D.EpochGrowths, Accepted, Zeros, E.ChainOf;
    trace, kept, j, k := EpochOfReset();
    AfterAccepted();
    AfterZeros(M.RESET_CONFIRM_READINGS);
    ResetAccepts();
    FirstLevel(trace[k]);
    Price(1, 1);
    assert 1 * GIB == GIB;
    BilledAgain(trace[j].books.journal);
    D.EpochDrift(trace, kept, 0, SCALE, j, k, 0, 1);
  }
}
