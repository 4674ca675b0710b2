/**
 What each request of the desk does, said in terms of rows, balances and the journal, and to whom: a table
 of requests that the desk is shown to refine in every state it can be in, and where every row came from.
 */
module Requests {
  import opened Options
  import opened Ledger
  import opened Resellers
  import opened Desk
  import opened Treasury
  import opened Reconciliation
  import opened Worlds
  import opened Histories
  import opened Readings
  import M = Metering
  import C = Catalog

  // ---- money ----

  /** One new transaction, and exactly its two balances have moved. */
  ghost predicate Paid(b: Books, c: Books, source: Owner, target: Owner, amount: int, key: Key) {
    && c.journal == b.journal + [Tx(key, [Entry(source, Debit, amount), Entry(target, Credit, amount)])]
    && c.accounts.Keys == b.accounts.Keys + {source, target}
    && forall o :: Balance(c, o) == Balance(b, o) - (if o == source then amount else 0) + (if o == target then amount else 0)
  }

  /** An organization may pay when it is active and stays above minus its credit. */
  predicate MayPay(w: World, org: nat, amount: int) {
    && org < |w.shop.tree.orgs| && w.shop.tree.orgs[org].active
    && Balance(w.shop.books, Org(org)) - amount >= -w.shop.tree.orgs[org].credit
  }

  lemma PayIs(w: World, source: Owner, target: Owner, amount: int, key: Key, enforce: bool)
    requires amount >= 1 && !Has(Journal(w), key) && enforce == source.Org?
    ensures var (paid, outcome) := Pay(w, source, target, amount, key, enforce);
            && paid == w.(shop := w.shop.(books := paid.shop.books))
            && outcome == (if source == System || MayPay(w, source.id, amount) then Posted else Refused(outcome.why))
            && (outcome == Posted ==> Paid(w.shop.books, paid.shop.books, source, target, amount, key))
  {
    TransferAnswers(w.shop.books, w.shop.tree.orgs, source, target, amount, key, enforce);
    TransferEffect(w.shop.books, w.shop.tree.orgs, source, target, amount, key, enforce);
  }

  // ---- organizations and servers ----

  /** A new organization with the account, and under a parent the contract, that go with it. */
  ghost predicate Opened(w: World, next: World, parent: Option<nat>, credit: int, price: int) {
    var n, tree, after := |w.shop.tree.orgs|, w.shop.tree, next.shop.tree;
    && after.orgs == tree.orgs + [Organization(parent, true, credit, 5)]
    && after.contracts == (match parent case None => tree.contracts case Some(p) => tree.contracts[n := Contract(p, price, true)])
    && TreeOk(after)
    && next == w.(shop := w.shop.(tree := after, books := w.shop.books.(accounts := w.shop.books.accounts[Org(n) := 0])))
  }

  /** One more level fits below the organization. */
  predicate RoomBelow(w: World, parent: nat) {
    parent < |w.shop.tree.orgs| && Fits(w.shop.tree.orgs, Height(w.shop.tree.orgs, parent) + 1, parent)
  }

  ghost predicate OrganizationDone(w: World, act: Act, next: World)
    requires act.CreateRoot? || act.CreateChild? || act.ToggleReseller?
  {
    match act
    case CreateRoot(credit) => Opened(w, next, None, credit, 0)
    case CreateChild(parent, credit, price, checked) =>
      if parent < |w.shop.tree.orgs| && (checked ==> RoomBelow(w, parent)) then Opened(w, next, Some(parent), credit, price)
      else next == w
    case ToggleReseller(parent, org) =>
      var orgs := w.shop.tree.orgs;
      if org < |orgs| && orgs[org].parent == Some(parent) then
        next == w.(shop := w.shop.(tree := w.shop.tree.(orgs := orgs[org := orgs[org].(active := !orgs[org].active)])))
      else next == w
  }

  predicate Owns(w: World, org: nat, panel: nat) {
    panel in w.catalog.panels && w.catalog.panels[panel].owner == Some(org)
  }

  /** The server can be bound to the organization under this id. */
  ghost predicate Bindable(w: World, id: nat, org: nat, panel: nat) {
    && org < |w.shop.tree.orgs| && panel in w.catalog.panels && id !in w.shop.bindings
    && forall b :: b in w.shop.bindings ==> w.shop.bindings[b].org != org
  }

  ghost predicate ServerDone(w: World, act: Act, next: World)
    requires act.AddPanel? || act.SetCoefficient? || act.Bind? || act.Manage?
  {
    match act
    case AddPanel(owner, coef) =>
      var id := w.catalog.next;
      next == w.(catalog := w.catalog.(panels := w.catalog.panels[id := C.Panel(owner, true, false)], next := id + 1),
                 shop := w.shop.(coefs := w.shop.coefs[id := coef]))
    case SetCoefficient(org, panel, coef) =>
      if Owns(w, org, panel) && w.catalog.panels[panel].active then
        next == w.(shop := w.shop.(coefs := w.shop.coefs[panel := coef]))
      else next == w
    case Bind(id, org, panel) =>
      if Bindable(w, id, org, panel) then next == w.(shop := w.shop.(bindings := w.shop.bindings[id := M.Binding(org, panel)]))
      else next == w
    case Manage(r) => if r.AddPanel? || r.Order? then next == w else next == w.(catalog := C.Next(w.catalog, r))
  }

  // ---- readings ----

  ghost predicate ReadingDone(w: World, act: Act, next: World)
    requires act.Usage? || act.UsageBatch?
  {
    match act
    case Usage(b, x) => next == w.(shop := if M.Observe(w.shop, b, x).1.Settled? then M.Observe(w.shop, b, x).0 else w.shop)
    case UsageBatch(items) =>
      if forall k :: 0 <= k < |items| ==> !M.Answer(w.shop, items, k).Failed? && !Doubles(w.shop, items, k) then
        next == w.(shop := M.AfterItems(w.shop, items))
      else next == w
  }

  // ---- funding ----

  ghost predicate FundingDone(w: World, act: Act, next: World)
    requires act.Fund? || act.RequestFunding? || act.DecideFunding?
  {
    match act
    case Fund(org, paid, text) =>
      if org >= |w.shop.tree.orgs| then next == w
      else
        && next == w.(shop := w.shop.(books := next.shop.books), calls := w.calls + [FundCall(text, org, paid)])
        && if Has(Journal(w), ExternalKey(text)) then next.shop.books == w.shop.books
           else Paid(w.shop.books, next.shop.books, System, Org(org), paid, ExternalKey(text))
    case RequestFunding(org, paid) =>
      if org < |w.shop.tree.orgs| then next == w.(fundings := w.fundings + [FundingRequest(org, paid, Asked)]) else next == w
    case DecideFunding(branch, id, approve, rootless) =>
      if !Decides(w, act, id) || w.fundings[id].status != Asked then next == w
      else if !approve then next == w.(fundings := w.fundings[id := w.fundings[id].(status := Denied)])
      else
        && next == w.(shop := w.shop.(books := next.shop.books), fundings := w.fundings[id := w.fundings[id].(status := Funded)])
        && Paid(w.shop.books, next.shop.books, System, Org(w.fundings[id].org), w.fundings[id].amount, FundingKey(id))
  }

  // ---- corrections ----

  /** The money of a correction: to the wallet when positive, back from it when negative. */
  ghost predicate Corrected(b: Books, c: Books, id: nat, target: nat, amount: int) {
    if amount > 0 then Paid(b, c, System, Org(target), amount, ApprovalKey(id))
    else Paid(b, c, Org(target), System, -amount, ApprovalKey(id))
  }

  predicate Correctable(w: World, target: nat, amount: int) {
    amount > 0 || MayPay(w, target, -amount)
  }

  ghost predicate CorrectionDone(w: World, act: Act, next: World)
    requires act.RequestAdjustment? || act.DecideApproval?
  {
    match act
    case RequestAdjustment(actor, org, target, amount, now) =>
      var orgs, id := w.shop.tree.orgs, |w.approvals|;
      if target >= |orgs| || (org != target && orgs[target].parent != Some(org)) || amount == 0 then next == w
      else if actor != ROOT then
        next == w.(approvals := w.approvals + [Approval(actor, None, target, amount, now + APPROVAL_TTL, Desk.Open, None)])
      else if !Correctable(w, target, amount) then next == w
      else
        var a := Approval(ROOT, Some(ROOT), target, amount, now + APPROVAL_TTL, Executed, Some(now));
        && next == w.(shop := w.shop.(books := next.shop.books), approvals := w.approvals + [a])
        && Corrected(w.shop.books, next.shop.books, id, target, amount)
    case DecideApproval(id, approve, now) =>
      if id >= |w.approvals| || w.approvals[id].status != Desk.Open then next == w
      else
        var a := w.approvals[id];
        if now >= a.expiresAt then next == w.(approvals := w.approvals[id := a.(status := Expired, decidedAt := Some(now))])
        else if !approve then
          next == w.(approvals := w.approvals[id := a.(status := TurnedDown, approver := Some(ROOT), decidedAt := Some(now))])
        else if !Correctable(w, a.target, a.amount) then next == w
        else
          && next == w.(shop := w.shop.(books := next.shop.books),
                        approvals := w.approvals[id := a.(status := Executed, approver := Some(ROOT), decidedAt := Some(now))])
          && Corrected(w.shop.books, next.shop.books, id, a.target, a.amount)
  }

  // ---- orders ----

  /** The flow of an order: one step ahead; rejected from any step before the last, cancelled before it is paid. */
  predicate Ahead(from: OrderStatus, to: OrderStatus) {
    Rank(from) < 4 && (match to
                       case Rejected => true
                       case Cancelled => Rank(from) < 3
                       case _ => Rank(to) == Rank(from) + 1)
  }

  lemma FlowIsAhead(from: OrderStatus, to: OrderStatus)
    ensures to in OrderFlow(from) <==> Ahead(from, to)
  {}

  /** Strangers may order at this server, and this plan on it. */
  predicate OnSale(s: C.Store, panel: nat, plan: Option<nat>) {
    && panel in s.panels && s.panels[panel].active && s.panels[panel].saleable
    && (plan.Some? ==>
          && plan.value in s.plans && s.plans[plan.value].active && s.plans[plan.value].form.panel == panel
          && var shelf := s.plans[plan.value].form.shelf;
             shelf.Some? ==> shelf.value in s.shelves && s.shelves[shelf.value].active
                             && s.shelves[shelf.value].org == s.plans[plan.value].org)
  }

  predicate InState(w: World, id: nat, from: OrderStatus) {
    id < |w.orders| && w.orders[id].status == from
  }

  ghost predicate OrderDone(w: World, act: Act, next: World)
    requires act.PlaceOrder? || act.CustomerStep? || act.Quote? || act.RejectOrder?
  {
    match act
    case PlaceOrder(actor, panel, plan) =>
      if !OnSale(w.catalog, panel, plan) then next == w
      else if plan == None then next == w.(orders := w.orders + [PanelOrder(actor, panel, None, Pending, Terms(0, 0, 0), None)])
      else
        var form := w.catalog.plans[plan.value].form;
        var amount := form.price * form.daily * form.days;
        var terms := Terms(amount, if form.credit == 0 then amount else form.credit, form.price);
        next == w.(catalog := w.catalog.(ordered := w.catalog.ordered + {plan.value}),
                   orders := w.orders + [PanelOrder(actor, panel, plan, Quoted, terms, None)])
    case CustomerStep(actor, id, to) =>
      if id < |w.orders| && w.orders[id].actor == actor && to in {Confirmed, PaymentDeclared, Cancelled}
         && Ahead(w.orders[id].status, to)
      then next == w.(orders := w.orders[id := w.orders[id].(status := to)]) else next == w
    case Quote(org, id, paid, credit, rate) =>
      if InState(w, id, Pending) && Owns(w, org, w.orders[id].panel) then
        var terms := Terms(amount := paid, credit := credit, price := rate);
        next == w.(orders := w.orders[id := w.orders[id].(status := Quoted, terms := terms)])
      else next == w
    case RejectOrder(org, id) =>
      if id < |w.orders| && Rank(w.orders[id].status) < 4 && Owns(w, org, w.orders[id].panel) then
        next == w.(orders := w.orders[id := w.orders[id].(status := Rejected)])
      else next == w
  }

  /** What an approval leaves: the new organization, its binding, and its opening balance from SYSTEM. */
  ghost predicate AccountOpened(w: World, next: World, org: nat, id: nat, bindAs: Option<nat>)
    requires id < |w.orders|
  {
    var n, o, after := |w.shop.tree.orgs|, w.orders[id], next.shop;
    && after.tree.orgs == w.shop.tree.orgs + [Organization(Some(org), true, o.terms.credit, 5)]
    && after.tree.contracts == w.shop.tree.contracts[n := Contract(org, o.terms.price, true)] && TreeOk(after.tree)
    && Paid(w.shop.books, after.books, System, Org(n), o.terms.amount, OrderKey(id))
    && next == w.(shop := w.shop.(tree := after.tree, books := after.books,
                                  bindings := if bindAs.Some? then w.shop.bindings[bindAs.value := M.Binding(n, o.panel)]
                                              else w.shop.bindings),
                  orders := w.orders[id := o.(status := Approved, org := Some(n))])
  }

  ghost predicate ApprovalDone(w: World, act: Act, next: World)
    requires act.ApproveOrder?
  {
    if InState(w, act.id, PaymentDeclared) && Owns(w, act.org, w.orders[act.id].panel) && RoomBelow(w, act.org) && act.slugFree
       && (act.bindAs.Some? ==> act.bindAs.value !in w.shop.bindings)
    then AccountOpened(w, next, act.org, act.id, act.bindAs)
    else next == w
  }

  // ---- the whole table ----

  ghost predicate Done(w: World, act: Act, next: World) {
    match act
    case CreateRoot(_) => OrganizationDone(w, act, next)
    case CreateChild(_, _, _, _) => OrganizationDone(w, act, next)
    case ToggleReseller(_, _) => OrganizationDone(w, act, next)
    case AddPanel(_, _) => ServerDone(w, act, next)
    case SetCoefficient(_, _, _) => ServerDone(w, act, next)
    case Bind(_, _, _) => ServerDone(w, act, next)
    case Manage(_) => ServerDone(w, act, next)
    case Usage(_, _) => ReadingDone(w, act, next)
    case UsageBatch(_) => ReadingDone(w, act, next)
    case Fund(_, _, _) => FundingDone(w, act, next)
    case RequestFunding(_, _) => FundingDone(w, act, next)
    case DecideFunding(_, _, _, _) => FundingDone(w, act, next)
    case RequestAdjustment(_, _, _, _, _) => CorrectionDone(w, act, next)
    case DecideApproval(_, _, _) => CorrectionDone(w, act, next)
    case PlaceOrder(_, _, _) => OrderDone(w, act, next)
    case CustomerStep(_, _, _) => OrderDone(w, act, next)
    case Quote(_, _, _, _, _) => OrderDone(w, act, next)
    case RejectOrder(_, _) => OrderDone(w, act, next)
    case ApproveOrder(_, _, _, _) => ApprovalDone(w, act, next)
  }

  lemma GrownIs(w: World, tree: Tree)
    requires ShopOk(w.shop) && tree.orgs != [] && |tree.orgs| == |w.shop.tree.orgs| + 1
    ensures Grown(w, tree) == w.(shop := w.shop.(tree := tree,
                                   books := w.shop.books.(accounts := w.shop.books.accounts[Org(|w.shop.tree.orgs|) := 0])))
    ensures Org(|w.shop.tree.orgs|) !in w.shop.books.accounts
  {
    hide Consistent, Covered, TreeOk, CreditsOk, MetersOk;
  }

  lemma OrganizationTaken(w: World, act: Act)
    requires WorldOk(w) && (act.CreateRoot? || act.CreateChild? || act.ToggleReseller?)
    ensures OrganizationDone(w, act, Step(w, act))
  {
    hide FundingsOk, ApprovalsOk, OrdersOk, CallsOk, C.CatalogOk, Accounted, Consistent, Covered, AccountsOk, MetersOk, CreditsOk,
         Grown, Fits, DepthAllowed, CopiedRows, TreeOk;
    var tree := w.shop.tree;
    match act {
      case CreateRoot(credit) =>
        AddRootKeeps(tree, credit, DEFAULT_DEPTH);
        GrownIs(w, AddRoot(tree, credit, DEFAULT_DEPTH));
      case CreateChild(parent, credit, price, checked) =>
        if parent < |tree.orgs| {
          DepthAllowedIff(tree, parent);
          AddChildKeeps(tree, parent, credit, DEFAULT_DEPTH, price);
          GrownIs(w, AddChild(tree, parent, credit, DEFAULT_DEPTH, price));
        }
      case _ =>
    }
  }

  lemma ServerTaken(w: World, act: Act)
    requires act.AddPanel? || act.SetCoefficient? || act.Bind? || act.Manage?
    ensures ServerDone(w, act, Step(w, act))
  {
    match act {
      case Manage(_) => hide C.Next;
      case _ =>
    }
  }

  lemma ReadingTaken(w: World, act: Act)
    requires act.Usage? || act.UsageBatch?
    ensures ReadingDone(w, act, Step(w, act))
  {
    hide M.Observe, M.AfterItems, Doubles, M.Answer, M.Batch;
    if act.UsageBatch? { BatchSurvivesIff(w.shop, act.items); }
  }

  lemma FundingKeyFree(w: World, id: nat)
    requires WorldOk(w) && id < |w.fundings|
    ensures w.fundings[id].amount > 0 && w.fundings[id].org < |w.shop.tree.orgs|
    ensures w.fundings[id].status != Funded ==> !Has(Journal(w), FundingKey(id))
  {
    hide ShopOk, ApprovalsOk, OrdersOk, CallsOk, C.CatalogOk, Accounted, Has;
    assert FundingFiled(Journal(w), id, w.fundings[id]);
  }

  lemma FundingTaken(w: World, act: Act)
    requires WorldOk(w) && (act.Fund? || act.RequestFunding? || act.DecideFunding?)
    ensures FundingDone(w, act, Step(w, act))
  {
    hide WorldOk, Transfer, Has, Paid;
    match act {
      case Fund(org, paid, text) =>
        if Has(Journal(w), ExternalKey(text)) {
          TransferReplays(w.shop.books, w.shop.tree.orgs, System, Org(org), paid, ExternalKey(text), false);
        } else {
          PayIs(w, System, Org(org), paid, ExternalKey(text), false);
        }
      case DecideFunding(branch, id, approve, rootless) =>
        if id < |w.fundings| {
          FundingKeyFree(w, id);
          var f := w.fundings[id];
          if f.status == Asked { PayIs(w, System, Org(f.org), f.amount, FundingKey(id), false); }
        }
      case _ =>
    }
  }

  lemma ApprovalKeyFree(w: World, id: nat)
    requires WorldOk(w)
    ensures id >= |w.approvals| || w.approvals[id].status != Executed ==> !Has(Journal(w), ApprovalKey(id))
    ensures id < |w.approvals| ==> w.approvals[id].amount != 0 && w.approvals[id].target < |w.shop.tree.orgs|
  {
    hide ShopOk, FundingsOk, OrdersOk, CallsOk, C.CatalogOk, Accounted, Has;
    if id < |w.approvals| { assert ApprovalFiled(Journal(w), id, w.approvals[id]) && WellDecided(w.approvals[id]); }
  }

  lemma AppliedIs(w: World, id: nat, a: Approval)
    requires a.amount != 0 && !Has(Journal(w), ApprovalKey(id))
    ensures var (paid, outcome) := Applied(w, id, a);
            && paid == w.(shop := w.shop.(books := paid.shop.books))
            && (outcome.Refused? <==> !Correctable(w, a.target, a.amount))
            && (!outcome.Refused? ==> Corrected(w.shop.books, paid.shop.books, id, a.target, a.amount))
  {
    hide Transfer, Has, Paid, MayPay;
    if a.amount > 0 {
      PayIs(w, System, Org(a.target), a.amount, ApprovalKey(id), false);
    } else {
      PayIs(w, Org(a.target), System, -a.amount, ApprovalKey(id), true);
    }
  }

  lemma CorrectionTaken(w: World, act: Act)
    requires WorldOk(w) && (act.RequestAdjustment? || act.DecideApproval?)
    ensures CorrectionDone(w, act, Step(w, act))
  {
    hide WorldOk, Applied, Has, Corrected, Correctable;
    match act {
      case RequestAdjustment(actor, org, target, amount, now) =>
        ApprovalKeyFree(w, |w.approvals|);
        if amount != 0 {
          AppliedIs(w, |w.approvals|, Approval(actor, None, target, amount, now + APPROVAL_TTL, Desk.Open, None));
        }
      case DecideApproval(id, approve, now) =>
        ApprovalKeyFree(w, id);
        if id < |w.approvals| && w.approvals[id].status == Desk.Open {
          AppliedIs(w, id, w.approvals[id].(decidedAt := Some(now)));
        }
    }
  }

  lemma OnSaleIs(s: C.Store, panel: nat, plan: Option<nat>)
    ensures C.Accepted(s, C.Order(panel, plan)) <==> OnSale(s, panel, plan)
  {}

  lemma OrderTaken(w: World, act: Act)
    requires act.PlaceOrder? || act.CustomerStep? || act.Quote? || act.RejectOrder?
    ensures OrderDone(w, act, Step(w, act))
  {
    hide C.Accepted;
    match act {
      case PlaceOrder(actor, panel, plan) =>
        OnSaleIs(w.catalog, panel, plan);
      case CustomerStep(actor, id, to) => if id < |w.orders| { FlowIsAhead(w.orders[id].status, to); }
      case _ =>
    }
  }

  lemma OrderKeyFree(w: World, id: nat)
    requires WorldOk(w) && InState(w, id, PaymentDeclared)
    ensures !Has(Journal(w), OrderKey(id)) && w.orders[id].terms.amount >= 1
  {
    hide ShopOk, FundingsOk, ApprovalsOk, CallsOk, C.CatalogOk, Accounted, Has;
    assert OrderFiled(Journal(w), id, w.orders[id]) && TermsOk(w.orders[id]);
  }

  /** The tree, the account and the binding of an approved order. */
  lemma AccountGrown(w: World, org: nat, o: PanelOrder, bindAs: Option<nat>)
    requires WorldOk(w) && org < |w.shop.tree.orgs|
    ensures var n, bigger := |w.shop.tree.orgs|, AddChild(w.shop.tree, org, o.terms.credit, DEFAULT_DEPTH, o.terms.price);
            var grown := Grown(w, bigger);
            && (if bindAs.Some? then WithBinding(grown, bindAs.value, n, o.panel) else grown)
                 == w.(shop := w.shop.(tree := bigger, books := w.shop.books.(accounts := w.shop.books.accounts[Org(n) := 0]),
                         bindings := if bindAs.Some? then w.shop.bindings[bindAs.value := M.Binding(n, o.panel)]
                                     else w.shop.bindings))
            && Org(n) !in w.shop.books.accounts && TreeOk(bigger)
  {
    hide FundingsOk, ApprovalsOk, OrdersOk, CallsOk, C.CatalogOk, Accounted, Consistent, Covered, AccountsOk, MetersOk, CreditsOk,
         Grown, CopiedRows, TreeOk, WithBinding;
    var bigger := AddChild(w.shop.tree, org, o.terms.credit, DEFAULT_DEPTH, o.terms.price);
    AddChildKeeps(w.shop.tree, org, o.terms.credit, DEFAULT_DEPTH, o.terms.price);
    GrownIs(w, bigger);
    BoundIs(Grown(w, bigger), bindAs, |w.shop.tree.orgs|, o.panel);
  }

  lemma RoomIs(w: World, parent: nat)
    requires WorldOk(w) && parent < |w.shop.tree.orgs|
    ensures DepthAllowed(w.shop.tree, parent) <==> RoomBelow(w, parent)
  {
    hide FundingsOk, ApprovalsOk, OrdersOk, CallsOk, C.CatalogOk, Accounted, Consistent, Covered, AccountsOk, MetersOk, CreditsOk,
         Fits, DepthAllowed;
    DepthAllowedIff(w.shop.tree, parent);
  }

  lemma ApprovalTaken(w: World, act: Act)
    requires WorldOk(w) && act.ApproveOrder?
    ensures ApprovalDone(w, act, Step(w, act))
  {
    hide WorldOk, Grown, RoomBelow, DepthAllowed, CopiedRows, TreeOk, Pay, Has, Paid, WithBinding;
    var id := act.id;
    if InState(w, id, PaymentDeclared) && Owns(w, act.org, w.orders[id].panel) && act.org < |w.shop.tree.orgs| {
      var o, n := w.orders[id], |w.shop.tree.orgs|;
      OrderKeyFree(w, id);
      RoomIs(w, act.org);
      AccountGrown(w, act.org, o, act.bindAs);
      var grown := Grown(w, AddChild(w.shop.tree, act.org, o.terms.credit, DEFAULT_DEPTH, o.terms.price));
      var bound := if act.bindAs.Some? then WithBinding(grown, act.bindAs.value, n, o.panel) else grown;
      PayIs(bound, System, Org(n), o.terms.amount, OrderKey(id), false);
      PaidFromNothing(w.shop.books, bound.shop.books, Pay(bound, System, Org(n), o.terms.amount, OrderKey(id), false).0.shop.books,
                      n, o.terms.amount, OrderKey(id));
    }
    if id < |w.orders| && act.org < |w.shop.tree.orgs| { RoomIs(w, act.org); }
    RoomExists(w, act.org);
  }

  lemma RoomExists(w: World, parent: nat)
    ensures RoomBelow(w, parent) ==> parent < |w.shop.tree.orgs|
  {}

  lemma BoundIs(w: World, bindAs: Option<nat>, org: nat, panel: nat)
    ensures (if bindAs.Some? then WithBinding(w, bindAs.value, org, panel) else w)
         == w.(shop := w.shop.(bindings := if bindAs.Some? then w.shop.bindings[bindAs.value := M.Binding(org, panel)]
                                          else w.shop.bindings))
  {}

  /** Opening an account at zero and then paying into it is one payment. */
  lemma PaidFromNothing(b: Books, empty: Books, c: Books, n: nat, amount: int, key: Key)
    requires empty == b.(accounts := b.accounts[Org(n) := 0]) && Org(n) !in b.accounts
    requires Paid(empty, c, System, Org(n), amount, key)
    ensures Paid(b, c, System, Org(n), amount, key)
  {
    forall o ensures Balance(empty, o) == Balance(b, o) {}
  }

  /** The desk refines the table: every request does just that, in every state that keeps the invariant of the system. */
  lemma StepDone(w: World, act: Act)
    requires WorldOk(w)
    ensures Done(w, act, Step(w, act))
  {
    hide WorldOk, Step, OrganizationDone, ServerDone, ReadingDone, FundingDone, CorrectionDone, OrderDone, ApprovalDone;
    match act {
      case CreateRoot(_) => OrganizationTaken(w, act);
      case CreateChild(_, _, _, _) => OrganizationTaken(w, act);
      case ToggleReseller(_, _) => OrganizationTaken(w, act);
      case AddPanel(_, _) => ServerTaken(w, act);
      case SetCoefficient(_, _, _) => ServerTaken(w, act);
      case Bind(_, _, _) => ServerTaken(w, act);
      case Manage(_) => ServerTaken(w, act);
      case Usage(_, _) => ReadingTaken(w, act);
      case UsageBatch(_) => ReadingTaken(w, act);
      case Fund(_, _, _) => FundingTaken(w, act);
      case RequestFunding(_, _) => FundingTaken(w, act);
      case DecideFunding(_, _, _, _) => FundingTaken(w, act);
      case RequestAdjustment(_, _, _, _, _) => CorrectionTaken(w, act);
      case DecideApproval(_, _, _) => CorrectionTaken(w, act);
      case ApproveOrder(_, _, _, _) => ApprovalTaken(w, act);
      case _ => OrderTaken(w, act);
    }
  }

  /** So it is in every run, after whatever came before. */
  lemma RunDone(acts: seq<Act>, act: Act)
    ensures Done(After(acts), act, After(acts + [act]))
  {
    hide Done, Step, After, WorldOk;
    AlwaysOk(acts);
    AfterNext(acts, act);
    StepDone(After(acts), act);
  }
}
