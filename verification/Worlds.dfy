/** What holds of the whole system in every state that any requests, in any order, can lead to. */
module Worlds {
  import opened Options
  import opened Sums
  import opened Ledger
  import opened Resellers
  import opened Desk
  import opened Treasury
  import opened Reconciliation
  import M = Metering
  import C = Catalog

  /** Approved funding requests, approved orders, executed corrections with their sign, and API funds once per key. */
  function Accounted(w: World): int {
    Sum(FundingAmounts(w.fundings)) + Sum(OrderAmounts(w.orders)) + Sum(ApprovalAmounts(w.approvals)) + CallTotal(w.calls)
  }

  function Journal(w: World): seq<Tx> {
    w.shop.books.journal
  }

  ghost predicate WorldOk(w: World) {
    && ShopOk(w.shop) && C.CatalogOk(w.catalog)
    && FundingsOk(Journal(w), w.fundings, |w.shop.tree.orgs|)
    && ApprovalsOk(Journal(w), w.approvals, |w.shop.tree.orgs|)
    && OrdersOk(Journal(w), w.orders, w.shop.tree, w.catalog)
    && CallsOk(Journal(w), w.calls)
    && Balance(w.shop.books, System) == -Accounted(w)
  }

  // ---- one request ----

  /** The rows a request does not touch stay explained by the journal. */
  lemma OthersStay(w: World, next: World, kind: Kind)
    requires WorldOk(w) && GrownBy(Journal(w), Journal(next), kind)
    requires Keeps(w.shop.tree, w.catalog, next.shop.tree, next.catalog)
    ensures kind != ForFunding ==> FundingsOk(Journal(next), w.fundings, |next.shop.tree.orgs|)
    ensures kind != ForApproval ==> ApprovalsOk(Journal(next), w.approvals, |next.shop.tree.orgs|)
    ensures kind != ForOrder ==> OrdersOk(Journal(next), w.orders, next.shop.tree, next.catalog)
    ensures kind != ForCall ==> CallsOk(Journal(next), w.calls)
  {
    hide FundingsOk, ApprovalsOk, OrdersOk, CallsOk, ShopOk, C.CatalogOk, GrownBy, Accounted;
    assert |w.shop.tree.orgs| <= |next.shop.tree.orgs|;
    if kind != ForFunding {
      FundingsStay(Journal(w), Journal(next), kind, w.fundings, |w.shop.tree.orgs|, |next.shop.tree.orgs|);
    }
    if kind != ForApproval {
      ApprovalsStay(Journal(w), Journal(next), kind, w.approvals, |w.shop.tree.orgs|, |next.shop.tree.orgs|);
    }
    if kind != ForOrder {
      OrdersStay(Journal(w), Journal(next), kind, w.orders, w.shop.tree, w.catalog, next.shop.tree, next.catalog);
    }
    if kind != ForCall {
      CallsStay(Journal(w), Journal(next), kind, w.calls);
    }
  }

  /** Paying under a new key, between SYSTEM and a known organization. */
  lemma PayKeeps(w: World, source: Owner, target: Owner, amount: int, key: Key, enforce: bool)
    requires ShopOk(w.shop) && amount > 0 && !Has(Journal(w), key)
    requires Known(source, |w.shop.tree.orgs|) && Known(target, |w.shop.tree.orgs|) && (enforce || source == System)
    ensures var (paid, outcome) := Pay(w, source, target, amount, key, enforce);
            && (outcome == Posted || outcome.Refused?) && (!enforce ==> outcome == Posted)
            && paid == w.(shop := w.shop.(books := paid.shop.books))
            && (outcome == Posted ==>
                  && ShopOk(paid.shop)
                  && Journal(paid) == Journal(w) + [TransferTx(source, target, amount, key)]
                  && GrownBy(Journal(w), Journal(paid), KindOf(key))
                  && Balance(paid.shop.books, System)
                     == Balance(w.shop.books, System) - (if source == System then amount else 0)
                        + (if target == System then amount else 0))
  {
    hide ShopOk, Has;
    TransferKeepsShop(w.shop, source, target, amount, key, enforce);
    TransferEffect(w.shop.books, w.shop.tree.orgs, source, target, amount, key, enforce);
  }

  lemma ReadingsKeep(w: World, shop: M.Shop)
    requires WorldOk(w) && ByReadings(w.shop, shop)
    ensures WorldOk(w.(shop := shop))
  {
    hide ShopOk, C.CatalogOk, FundingsOk, ApprovalsOk, OrdersOk, CallsOk;
    var next := w.(shop := shop);
    assert GrownBy(Journal(w), Journal(next), ForUsage);
    OthersStay(w, next, ForUsage);
  }

  lemma UsageKeeps(w: World, b: nat, x: nat)
    requires WorldOk(w)
    ensures WorldOk(Step(w, Usage(b, x)))
  {
    hide M.Observe, ShopOk, C.CatalogOk, FundingsOk, ApprovalsOk, OrdersOk, CallsOk;
    ObserveKeepsShop(w.shop, b, x);
    if M.Observe(w.shop, b, x).1.Settled? {
      ReadingsKeep(w, M.Observe(w.shop, b, x).0);
    }
  }

  lemma BatchKeeps(w: World, items: seq<(nat, nat)>)
    requires WorldOk(w)
    ensures WorldOk(Step(w, UsageBatch(items)))
  {
    hide M.BatchFrom, ShopOk, C.CatalogOk, FundingsOk, ApprovalsOk, OrdersOk, CallsOk;
    BatchKeepsShop(w.shop, items, {});
    if M.Batch(w.shop, items).Some? {
      ReadingsKeep(w, M.Batch(w.shop, items).value);
    }
  }

  lemma FundKeeps(w: World, org: nat, amount: int, text: string)
    requires WorldOk(w) && amount > 0
    ensures WorldOk(FundCalled(w, org, amount, text))
  {
    hide ShopOk, C.CatalogOk, FundingsOk, ApprovalsOk, OrdersOk, CallsOk, Transfer, Has, Called, CallTotal;
    if org < |w.shop.tree.orgs| {
      var c, key := FundCall(text, org, amount), ExternalKey(text);
      CalledIff(Journal(w), w.calls, text);
      CallAdded(w.calls, c, text);
      CallFiled(Journal(w), w.calls, c);
      if Has(Journal(w), key) {
        TransferReplays(w.shop.books, w.shop.tree.orgs, System, Org(org), amount, key, false);
      } else {
        PayKeeps(w, System, Org(org), amount, key, false);
        OthersStay(w, Pay(w, System, Org(org), amount, key, false).0, ForCall);
      }
    }
  }

  lemma CalledIff(journal: seq<Tx>, calls: seq<FundCall>, text: string)
    requires CallsOk(journal, calls)
    ensures Has(journal, ExternalKey(text)) <==> Called(calls, text)
  {}

  lemma TransferReplays(b: Books, orgs: seq<Organization>, source: Owner, target: Owner, amount: int, key: Key, enforce: bool)
    requires Has(b.journal, key) && amount > 0
    ensures Transfer(b, orgs, source, target, amount, key, enforce) == (b, Replayed)
  {}

  /** A grown tree or a switched status: the books keep every balance, the tree keeps credits and contracts. */
  lemma TreeKeeps(w: World, next: World)
    requires WorldOk(w) && ShopOk(next.shop) && next == w.(shop := next.shop)
    requires Journal(next) == Journal(w) && Balance(next.shop.books, System) == Balance(w.shop.books, System)
    requires Keeps(w.shop.tree, w.catalog, next.shop.tree, next.catalog)
    ensures WorldOk(next)
  {
    hide ShopOk, C.CatalogOk, FundingsOk, ApprovalsOk, OrdersOk, CallsOk, Keeps;
    assert GrownBy(Journal(w), Journal(next), ForUsage);
    assert GrownBy(Journal(w), Journal(next), ForCall);
    OthersStay(w, next, ForUsage);
  }

  lemma RootKeeps(w: World, credit: nat)
    requires WorldOk(w)
    ensures WorldOk(Step(w, CreateRoot(credit)))
  {
    hide C.CatalogOk, FundingsOk, ApprovalsOk, OrdersOk, CallsOk, TreeOk, Consistent, Covered, AccountsOk, MetersOk;
    AddRootKeeps(w.shop.tree, credit, DEFAULT_DEPTH);
    var tree := AddRoot(w.shop.tree, credit, DEFAULT_DEPTH);
    GrownKeepsShop(w, tree);
    TreeKeeps(w, Grown(w, tree));
  }

  lemma ChildSettles(w: World, parent: nat, credit: nat, price: int)
    requires ShopOk(w.shop) && parent < |w.shop.tree.orgs|
    ensures var tree := AddChild(w.shop.tree, parent, credit, DEFAULT_DEPTH, price);
            && ShopOk(Grown(w, tree).shop)
            && Journal(Grown(w, tree)) == Journal(w)
            && Balance(Grown(w, tree).shop.books, System) == Balance(w.shop.books, System)
            && Keeps(w.shop.tree, w.catalog, tree, w.catalog)
  {
    hide Consistent, Covered, AccountsOk, MetersOk;
    AddChildKeeps(w.shop.tree, parent, credit, DEFAULT_DEPTH, price);
    GrownKeepsShop(w, AddChild(w.shop.tree, parent, credit, DEFAULT_DEPTH, price));
    assert forall i :: i in w.shop.tree.contracts ==> i < |w.shop.tree.orgs|;
  }

  lemma ChildKeeps(w: World, parent: nat, credit: nat, price: nat, checked: bool)
    requires WorldOk(w)
    ensures WorldOk(CreatedChild(w, parent, credit, price, checked))
  {
    hide ShopOk, C.CatalogOk, FundingsOk, ApprovalsOk, OrdersOk, CallsOk, DepthAllowed;
    if parent < |w.shop.tree.orgs| {
      ChildSettles(w, parent, credit, price);
      TreeKeeps(w, Grown(w, AddChild(w.shop.tree, parent, credit, DEFAULT_DEPTH, price)));
    }
  }

  lemma ToggleKeepsTree(t: Tree, org: nat)
    requires TreeOk(t) && org < |t.orgs|
    ensures TreeOk(t.(orgs := t.orgs[org := t.orgs[org].(active := !t.orgs[org].active)]))
  {
    var next := t.(orgs := t.orgs[org := t.orgs[org].(active := !t.orgs[org].active)]);
    forall row: ClosureRow ensures Ancestor(next.orgs, row.descendant, row.depth) == Ancestor(t.orgs, row.descendant, row.depth) {
      SameParents(t.orgs, next.orgs, row.descendant, row.depth);
    }
  }

  lemma {:induction false} SameParents(orgs: seq<Organization>, others: seq<Organization>, d: nat, k: nat)
    requires |orgs| == |others| && forall i :: 0 <= i < |orgs| ==> orgs[i].parent == others[i].parent
    ensures Ancestor(others, d, k) == Ancestor(orgs, d, k)
    decreases k
  {
    if d < |orgs| && k > 0 && orgs[d].parent.Some? { SameParents(orgs, others, orgs[d].parent.value, k - 1); }
  }

  lemma ToggleKeeps(w: World, parent: nat, org: nat)
    requires WorldOk(w)
    ensures WorldOk(Toggled(w, parent, org))
  {
    hide C.CatalogOk, FundingsOk, ApprovalsOk, OrdersOk, CallsOk, TreeOk, Consistent, MetersOk;
    var next := Toggled(w, parent, org);
    if next != w {
      ToggleKeepsTree(w.shop.tree, org);
      SameMeters(w.shop, next.shop);
      TreeKeeps(w, next);
    }
  }

  /** Servers, coefficients and bindings do not touch the books. */
  lemma ServerKeeps(w: World, act: Act)
    requires WorldOk(w) && (act.AddPanel? || act.SetCoefficient? || act.Bind?)
    ensures WorldOk(Step(w, act))
  {
    hide ShopOk, FundingsOk, ApprovalsOk, OrdersOk, CallsOk, C.CatalogOk, C.Next;
    var next := Step(w, act);
    if act.AddPanel? {
      ManageKeeps(w, C.AddPanel(act.owner));
      OwnersStay(w.catalog, C.AddPanel(act.owner));
    }
    SameBooks(w.shop, next.shop);
    assert GrownBy(Journal(w), Journal(next), ForUsage);
    OthersStay(w, next, ForUsage);
  }

  lemma SameBooks(s: M.Shop, after: M.Shop)
    requires ShopOk(s) && after.books == s.books && after.tree == s.tree && after.meters == s.meters
    requires forall b :: b in after.bindings && b !in s.bindings ==> after.bindings[b].org < |s.tree.orgs|
    requires forall b :: b in after.bindings && b in s.bindings ==> after.bindings[b] == s.bindings[b]
    ensures ShopOk(after)
  {
    hide Consistent, Covered, TreeOk, AccountsOk, CreditsOk, M.MeterOk;
    forall b: nat ensures M.MeterOf(after, b) == M.MeterOf(s, b) {}
    assert MetersOk(after);
  }

  /** Servers never change hands. */
  lemma OwnersStay(s: C.Store, r: C.Request)
    requires C.CatalogOk(s)
    ensures forall p :: p in s.panels ==> p in C.Next(s, r).panels && C.Next(s, r).panels[p].owner == s.panels[p].owner
  {
    assert s.next !in s.panels;
  }

  lemma ManageKeeps(w: World, r: C.Request)
    requires WorldOk(w)
    ensures WorldOk(w.(catalog := C.Next(w.catalog, r)))
  {
    hide ShopOk, FundingsOk, ApprovalsOk, OrdersOk, CallsOk, C.CatalogOk, C.Next;
    C.NextKeeps(w.catalog, r);
    OwnersStay(w.catalog, r);
    var next := w.(catalog := C.Next(w.catalog, r));
    assert GrownBy(Journal(w), Journal(next), ForUsage);
    OthersStay(w, next, ForUsage);
  }

  lemma FundingKeeps(w: World, branch: nat, id: nat, approve: bool, rootless: bool)
    requires WorldOk(w)
    ensures WorldOk(FundingDecided(w, branch, id, approve, rootless))
  {
    hide ShopOk, C.CatalogOk, ApprovalsOk, OrdersOk, CallsOk, Transfer, Has;
    var next := FundingDecided(w, branch, id, approve, rootless);
    if next != w {
      var f := w.fundings[id];
      assert FundingFiled(Journal(w), id, f);
      if approve {
        PayKeeps(w, System, Org(f.org), f.amount, FundingKey(id), false);
        FundingGranted(Journal(w), w.fundings, |w.shop.tree.orgs|, id);
        OthersStay(w, next, ForFunding);
      } else {
        FundingDenied(Journal(w), w.fundings, |w.shop.tree.orgs|, id);
      }
    }
  }

  lemma AskKeeps(w: World, org: nat, amount: int)
    requires WorldOk(w) && amount > 0
    ensures WorldOk(FundingAsked(w, org, amount))
  {
    hide ShopOk, C.CatalogOk, FundingsOk, ApprovalsOk, OrdersOk, CallsOk;
    if org < |w.shop.tree.orgs| {
      FundingAdded(Journal(w), w.fundings, |w.shop.tree.orgs|, FundingRequest(org, amount, Asked));
    }
  }

  /** Applying a correction files it, moves its signed amount out of SYSTEM, or is refused. */
  lemma AppliedKeeps(w: World, id: nat, a: Approval, done: Approval)
    requires WorldOk(w) && id <= |w.approvals| && (id < |w.approvals| ==> w.approvals[id].status == Open)
    requires a.target < |w.shop.tree.orgs| && done.target == a.target && done.amount == a.amount
    requires WellDecided(done) && done.status == Executed
    ensures var (paid, outcome) := Applied(w, id, a);
            !outcome.Refused? ==>
              WorldOk(paid.(approvals := if id < |w.approvals| then w.approvals[id := done] else w.approvals + [done]))
  {
    hide ShopOk, C.CatalogOk, FundingsOk, OrdersOk, CallsOk, Transfer, Has;
    assert !Has(Journal(w), ApprovalKey(id)) by {
      if id < |w.approvals| { assert ApprovalFiled(Journal(w), id, w.approvals[id]); }
    }
    var (paid, outcome) := Applied(w, id, a);
    if a.amount > 0 {
      PayKeeps(w, System, Org(a.target), a.amount, ApprovalKey(id), false);
    } else {
      PayKeeps(w, Org(a.target), System, -a.amount, ApprovalKey(id), true);
    }
    if outcome == Posted {
      assert ApprovalTx(id, done) == Journal(paid)[|Journal(w)|];
      ApprovalExecuted(Journal(w), w.approvals, |w.shop.tree.orgs|, id, done);
      OthersStay(w, paid, ForApproval);
    }
  }

  lemma AdjustmentKeeps(w: World, actor: nat, org: nat, target: nat, amount: int, now: int)
    requires WorldOk(w)
    ensures WorldOk(AdjustmentAsked(w, actor, org, target, amount, now))
  {
    hide ShopOk, C.CatalogOk, FundingsOk, ApprovalsOk, OrdersOk, CallsOk, Applied;
    var next := AdjustmentAsked(w, actor, org, target, amount, now);
    if next != w {
      var a := Approval(actor, None, target, amount, now + APPROVAL_TTL, Open, None);
      if actor == ROOT {
        AppliedKeeps(w, |w.approvals|, a, a.(approver := Some(actor), status := Executed, decidedAt := Some(now)));
      } else {
        ApprovalWritten(Journal(w), w.approvals, |w.shop.tree.orgs|, |w.approvals|, a);
      }
    }
  }

  lemma DecisionKeeps(w: World, id: nat, approve: bool, now: int)
    requires WorldOk(w)
    ensures WorldOk(ApprovalDecided(w, id, approve, now))
  {
    hide ShopOk, C.CatalogOk, FundingsOk, OrdersOk, CallsOk, Applied, ApprovalFiled, Has;
    var next := ApprovalDecided(w, id, approve, now);
    if next != w {
      var a := w.approvals[id].(decidedAt := Some(now));
      if a.expiresAt <= now {
        ApprovalWritten(Journal(w), w.approvals, |w.shop.tree.orgs|, id, a.(status := Expired));
      } else if !approve {
        ApprovalWritten(Journal(w), w.approvals, |w.shop.tree.orgs|, id, a.(status := TurnedDown, approver := Some(ROOT)));
      } else {
        AppliedKeeps(w, id, a, a.(status := Executed, approver := Some(ROOT)));
      }
    }
  }

  lemma PlanTermsPositive(form: C.Form)
    ensures PlanTerms(form).amount >= 1 && PlanTerms(form).credit >= 0
  {
    var a, b, c: int := form.price, form.daily, form.days;
    assert a * b >= 1;
    assert a * b * c >= 1;
  }

  lemma PlacedKeeps(w: World, actor: nat, panel: nat, plan: Option<nat>)
    requires WorldOk(w)
    ensures WorldOk(OrderPlaced(w, actor, panel, plan))
  {
    hide ShopOk, C.CatalogOk, FundingsOk, ApprovalsOk, OrdersOk, CallsOk, PlanTerms;
    var next := OrderPlaced(w, actor, panel, plan);
    if next != w {
      ManageKeeps(w, C.Order(panel, plan));
      if plan.Some? { PlanTermsPositive(w.catalog.plans[plan.value].form); }
      OrderWritten(Journal(w), w.orders, w.shop.tree, next.catalog, |w.orders|, next.orders[|w.orders|]);
    }
  }

  /** Every step of an order short of its approval. */
  lemma OrderStepKeeps(w: World, act: Act)
    requires WorldOk(w) && (act.CustomerStep? || act.Quote? || act.RejectOrder?)
    ensures WorldOk(Step(w, act))
  {
    hide ShopOk, C.CatalogOk, FundingsOk, ApprovalsOk, CallsOk, Has, AccountMade;
    var next := Step(w, act);
    if next != w {
      assert TermsOk(w.orders[act.id]) && OrderFiled(Journal(w), act.id, w.orders[act.id]);
      OrderWritten(Journal(w), w.orders, w.shop.tree, w.catalog, act.id, next.orders[act.id]);
    }
  }

  lemma ApprovedKeeps(w: World, org: nat, id: nat, slugFree: bool, bindAs: Option<nat>)
    requires WorldOk(w)
    ensures WorldOk(OrderApproved(w, org, id, slugFree, bindAs))
  {
    hide ShopOk, C.CatalogOk, FundingsOk, ApprovalsOk, CallsOk, Has, Pay, DepthAllowed, AccountMade, Grown;
    var next := OrderApproved(w, org, id, slugFree, bindAs);
    if next != w {
      var o, child := w.orders[id], |w.shop.tree.orgs|;
      assert TermsOk(o) && OrderFiled(Journal(w), id, o);
      var tree := AddChild(w.shop.tree, org, o.terms.credit, DEFAULT_DEPTH, o.terms.price);
      ChildSettles(w, org, o.terms.credit, o.terms.price);
      var grown := Grown(w, tree);
      var bound := if bindAs.Some? then WithBinding(grown, bindAs.value, child, o.panel) else grown;
      GrownParts(w, tree);
      SameBooks(grown.shop, bound.shop);
      PayKeeps(bound, System, Org(child), o.terms.amount, OrderKey(id), false);
      var done := o.(status := Approved, org := Some(child));
      assert AccountMade(tree, w.catalog, done) by { MadeNow(w, org, done); }
      OrderGranted(Journal(w), w.orders, w.shop.tree, w.catalog, tree, id, done);
      OthersStay(w, next, ForOrder);
    }
  }

  lemma GrownParts(w: World, tree: Tree)
    requires tree.orgs != []
    ensures var g := Grown(w, tree);
            && g == w.(shop := g.shop) && g.shop.tree == tree && g.shop.bindings == w.shop.bindings && Journal(g) == Journal(w)
  {}

  lemma MadeNow(w: World, org: nat, o: PanelOrder)
    requires o.org == Some(|w.shop.tree.orgs|) && Sells(w.catalog, o.panel, org)
    ensures AccountMade(AddChild(w.shop.tree, org, o.terms.credit, DEFAULT_DEPTH, o.terms.price), w.catalog, o)
  {}

  /** Every request keeps the whole system in order. */
  lemma StepKeeps(w: World, act: Act)
    requires WorldOk(w)
    ensures WorldOk(Step(w, act))
  {
    hide WorldOk, M.UsageOnce, M.Batch;
    match act {
      case Usage(b, x) => UsageKeeps(w, b, x);
      case UsageBatch(items) => BatchKeeps(w, items);
      case Fund(org, paid, text) => FundKeeps(w, org, paid, text);
      case CreateRoot(credit) => RootKeeps(w, credit);
      case CreateChild(parent, credit, price, checked) => ChildKeeps(w, parent, credit, price, checked);
      case ToggleReseller(parent, org) => ToggleKeeps(w, parent, org);
      case AddPanel(_, _) => ServerKeeps(w, act);
      case SetCoefficient(_, _, _) => ServerKeeps(w, act);
      case Bind(_, _, _) => ServerKeeps(w, act);
      case Manage(r) => ManageKeeps(w, r);
      case RequestFunding(org, paid) => AskKeeps(w, org, paid);
      case DecideFunding(branch, id, approve, rootless) => FundingKeeps(w, branch, id, approve, rootless);
      case RequestAdjustment(actor, org, target, amount, now) => AdjustmentKeeps(w, actor, org, target, amount, now);
      case DecideApproval(id, approve, now) => DecisionKeeps(w, id, approve, now);
      case PlaceOrder(actor, panel, plan) => PlacedKeeps(w, actor, panel, plan);
      case ApproveOrder(org, id, slugFree, bindAs) => ApprovedKeeps(w, org, id, slugFree, bindAs);
      case _ => OrderStepKeeps(w, act);
    }
  }

  lemma EmptyOk()
    ensures WorldOk(Empty())
  {
    hide ShopOk, C.CatalogOk, FundingsOk, ApprovalsOk, OrdersOk, CallsOk;
    EmptyShop(Empty().shop);
    EmptyDesk(Empty());
    EmptyAccounts();
  }

  lemma EmptyDesk(w: World)
    requires w == Empty()
    ensures C.CatalogOk(w.catalog) && FundingsOk(Journal(w), w.fundings, 0) && ApprovalsOk(Journal(w), w.approvals, 0)
    ensures OrdersOk(Journal(w), w.orders, w.shop.tree, w.catalog) && CallsOk(Journal(w), w.calls)
  {}

  lemma EmptyAccounts()
    ensures Accounted(Empty()) == 0
  {
    assert FundingAmounts([]) == [] && OrderAmounts([]) == [] && ApprovalAmounts([]) == [];
  }

  lemma EmptyShop(s: M.Shop)
    requires s == Empty().shop
    ensures ShopOk(s)
  {
    assert Imbalance(s.books) == {};
  }

  // ---- every reachable state ----

  lemma {:induction false} AlwaysOk(acts: seq<Act>)
    ensures WorldOk(After(acts))
  {
    if acts == [] {
      EmptyOk();
    } else {
      AlwaysOk(acts[..|acts| - 1]);
      StepKeeps(After(acts[..|acts| - 1]), acts[|acts| - 1]);
    }
  }

  /**
   In every state that any requests can lead to: every cached balance is credits minus debits, each
   transaction is one debit and one credit of the same positive amount under a key of its own,
   all balances sum to zero, and no organization is below minus its credit.
   */
  lemma BooksAlwaysBalance(acts: seq<Act>)
    ensures var s := After(acts).shop;
            && Consistent(s.books) && Imbalance(s.books) == {} && Covered(s.books, s.tree.orgs)
            && HeldByOrganizations(s.books) + Balance(s.books, System) == 0
  {
    hide Covered, TreeOk, Accounted, HeldByOrganizations, FundingsOk, ApprovalsOk, OrdersOk, CallsOk, C.CatalogOk;
    AlwaysOk(acts);
    ZeroSum(After(acts).shop.books);
  }

  /** Every rial that has left SYSTEM is an approved funding request or order, an executed correction, or an API fund. */
  lemma SystemExplained(acts: seq<Act>)
    ensures var w := After(acts);
            && -Balance(w.shop.books, System) == Accounted(w)
            && HeldByOrganizations(w.shop.books) == Accounted(w)
  {
    hide Consistent, Covered, TreeOk, Accounted, HeldByOrganizations;
    AlwaysOk(acts);
    ZeroSum(After(acts).shop.books);
    assert Consistent(After(acts).shop.books);
  }
}
