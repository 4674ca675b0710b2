/**
 The desk: every way in which the system's state is changed over HTTP or by the bot
 (src/control_plane/api.py, web_api.py, telegram_consumer.py), one committed request at a time.
 Funding requests, wallet corrections and customer orders each end in at most one transfer.

 Who may call what is decided by a permission table that is not modelled, except that the caller is
 the root administrator, or belongs to an organization, where the code itself asks for it.
 */
module Desk {
  import opened Options
  import opened Ledger
  import opened Resellers
  import M = Metering
  import C = Catalog

  /** The root administrator's actor, and how long a correction may wait. */
  const ROOT: nat
  const APPROVAL_TTL: Positive

  /** max_depth of every organization the program creates. */
  const DEFAULT_DEPTH := 5

  datatype FundingStatus = Asked | Funded | Denied

  datatype FundingRequest = FundingRequest(org: nat, amount: int, status: FundingStatus)

  datatype ApprovalStatus = Open | Executed | TurnedDown | Expired

  /** A wallet correction: positive amounts credit the target, negative ones take back. */
  datatype Approval = Approval(requester: nat, approver: Option<nat>, target: nat, amount: int, expiresAt: int,
                               status: ApprovalStatus, decidedAt: Option<int>)

  datatype OrderStatus = Pending | Quoted | Confirmed | PaymentDeclared | Approved | Rejected | Cancelled

  /** What the customer pays, the credit of the account, and the rate per GiB. */
  datatype Terms = Terms(amount: int, credit: int, price: int)

  datatype PanelOrder = PanelOrder(actor: nat, panel: nat, plan: Option<nat>, status: OrderStatus, terms: Terms, org: Option<nat>)

  /** A call of the funding API that was answered. */
  datatype FundCall = FundCall(text: string, org: nat, amount: int)

  /** The rows a request can see; their identifiers are their positions. `calls` is not stored by the program. */
  datatype World = World(shop: M.Shop, catalog: C.Store, fundings: seq<FundingRequest>, approvals: seq<Approval>,
                         orders: seq<PanelOrder>, calls: seq<FundCall>)

  datatype Act =
    | Usage(binding: nat, reading: nat)
    | UsageBatch(items: seq<(nat, nat)>)
    | Fund(org: nat, paid: Positive, text: string)
    | CreateRoot(credit: nat)
    | CreateChild(parent: nat, credit: nat, price: nat, checked: bool)
    | ToggleReseller(parent: nat, org: nat)
    | AddPanel(owner: Option<nat>, coef: Positive)
    | SetCoefficient(org: nat, panel: nat, coef: Positive)
    | Bind(binding: nat, org: nat, panel: nat)
    | Manage(request: C.Request)
    | RequestFunding(org: nat, paid: Positive)
    | DecideFunding(branch: nat, id: nat, approve: bool, rootless: bool)
    | RequestAdjustment(actor: nat, org: nat, target: nat, amount: int, now: int)
    | DecideApproval(id: nat, approve: bool, now: int)
    | PlaceOrder(actor: nat, panel: nat, plan: Option<nat>)
    | CustomerStep(actor: nat, id: nat, to: OrderStatus)
    | Quote(org: nat, id: nat, paid: Positive, credit: nat, rate: Positive)
    | RejectOrder(org: nat, id: nat)
    | ApproveOrder(org: nat, id: nat, slugFree: bool, bindAs: Option<nat>)

  // ---- shared steps ----

  function Pay(w: World, source: Owner, target: Owner, amount: int, key: Key, enforce: bool): (World, Outcome) {
    var (books, outcome) := Transfer(w.shop.books, w.shop.tree.orgs, source, target, amount, key, enforce);
    (w.(shop := w.shop.(books := books)), outcome)
  }

  /** The world with a grown tree and the account of its newest organization. */
  function Grown(w: World, tree: Tree): World
    requires tree.orgs != []
  {
    var books := w.shop.books.(accounts := Ledger.Open(w.shop.books.accounts, Org(|tree.orgs| - 1)));
    w.(shop := w.shop.(tree := tree, books := books))
  }

  function WithBinding(w: World, id: nat, org: nat, panel: nat): World {
    w.(shop := w.shop.(bindings := w.shop.bindings[id := M.Binding(org, panel)]))
  }

  function WithCoefficient(w: World, panel: nat, coef: int): World {
    w.(shop := w.shop.(coefs := w.shop.coefs[panel := coef]))
  }

  // ---- organizations and servers ----

  function CreatedChild(w: World, parent: nat, credit: nat, price: nat, checked: bool): World {
    if parent >= |w.shop.tree.orgs| || (checked && !DepthAllowed(w.shop.tree, parent)) then w
    else Grown(w, AddChild(w.shop.tree, parent, credit, DEFAULT_DEPTH, price))
  }

  function Toggled(w: World, parent: nat, org: nat): World {
    var orgs := w.shop.tree.orgs;
    if org >= |orgs| || orgs[org].parent != Some(parent) then w
    else w.(shop := w.shop.(tree := w.shop.tree.(orgs := orgs[org := orgs[org].(active := !orgs[org].active)])))
  }

  function BindingAdded(w: World, id: nat, org: nat, panel: nat): World {
    if org >= |w.shop.tree.orgs| || panel !in w.catalog.panels || id in w.shop.bindings
       || (exists b :: b in w.shop.bindings && w.shop.bindings[b].org == org) then w
    else WithBinding(w, id, org, panel)
  }

  // ---- funding requests ----

  function FundCalled(w: World, org: nat, amount: int, text: string): World {
    if org >= |w.shop.tree.orgs| then w
    else
      var (paid, outcome) := Pay(w, System, Org(org), amount, ExternalKey(text), false);
      if outcome.Refused? then w else paid.(calls := w.calls + [FundCall(text, org, amount)])
  }

  function FundingAsked(w: World, org: nat, amount: int): World {
    if org >= |w.shop.tree.orgs| then w
    else w.(fundings := w.fundings + [FundingRequest(org, amount, Asked)])
  }

  /** decide_funding_request: only the direct parent decides, or the root for a top-level organization. */
  function FundingDecided(w: World, branch: nat, id: nat, approve: bool, rootless: bool): World {
    if id >= |w.fundings| || w.fundings[id].status != Asked || w.fundings[id].org >= |w.shop.tree.orgs| then w
    else
      var f := w.fundings[id];
      var parent := w.shop.tree.orgs[f.org].parent;
      if parent != Some(branch) && !(rootless && parent == None) then w
      else if !approve then w.(fundings := w.fundings[id := f.(status := Denied)])
      else
        var (paid, outcome) := Pay(w, System, Org(f.org), f.amount, FundingKey(id), false);
        if outcome.Refused? then w else paid.(fundings := w.fundings[id := f.(status := Funded)])
  }

  // ---- wallet corrections ----

  function Applied(w: World, id: nat, a: Approval): (World, Outcome) {
    if a.amount > 0 then Pay(w, System, Org(a.target), a.amount, ApprovalKey(id), false)
    else Pay(w, Org(a.target), System, -a.amount, ApprovalKey(id), true)
  }

  /** request_adjustment: the root's own requests are applied at once, and vanish if they cannot be. */
  function AdjustmentAsked(w: World, actor: nat, org: nat, target: nat, amount: int, now: int): World {
    if target >= |w.shop.tree.orgs| || (org != target && w.shop.tree.orgs[target].parent != Some(org)) || amount == 0 then w
    else
      var a := Approval(actor, None, target, amount, now + APPROVAL_TTL, Open, None);
      if actor != ROOT then w.(approvals := w.approvals + [a])
      else
        var (paid, outcome) := Applied(w, |w.approvals|, a);
        if outcome.Refused? then w
        else paid.(approvals := w.approvals + [a.(approver := Some(actor), status := Executed, decidedAt := Some(now))])
  }

  /** decide_approval, by the root administrator. A correction that cannot be applied stays open. */
  function ApprovalDecided(w: World, id: nat, approve: bool, now: int): World {
    if id >= |w.approvals| || w.approvals[id].status != Open then w
    else
      var a := w.approvals[id].(decidedAt := Some(now));
      if a.expiresAt <= now then w.(approvals := w.approvals[id := a.(status := Expired)])
      else if !approve then w.(approvals := w.approvals[id := a.(status := TurnedDown, approver := Some(ROOT))])
      else
        var (paid, outcome) := Applied(w, id, a);
        if outcome.Refused? then w
        else paid.(approvals := w.approvals[id := a.(status := Executed, approver := Some(ROOT))])
  }

  // ---- orders ----

  /** ORDER_FLOW */
  function OrderFlow(from: OrderStatus): set<OrderStatus> {
    match from
    case Pending => {Quoted, Rejected, Cancelled}
    case Quoted => {Confirmed, Rejected, Cancelled}
    case Confirmed => {PaymentDeclared, Rejected, Cancelled}
    case PaymentDeclared => {Approved, Rejected}
    case _ => {}
  }

  predicate CanMove(w: World, id: nat, to: OrderStatus) {
    id < |w.orders| && to in OrderFlow(w.orders[id].status)
  }

  /** assert_order_seller */
  predicate Sells(catalog: C.Store, panel: nat, org: nat) {
    panel in catalog.panels && catalog.panels[panel].owner == Some(org)
  }

  /** The terms a published plan prices an order at. */
  function PlanTerms(form: C.Form): Terms {
    var amount := form.price * form.daily * form.days;
    Terms(amount, if form.credit != 0 then form.credit else amount, form.price)
  }

  function OrderPlaced(w: World, actor: nat, panel: nat, plan: Option<nat>): World {
    if !C.Accepted(w.catalog, C.Order(panel, plan)) then w
    else
      var order := match plan
        case None => PanelOrder(actor, panel, None, Pending, Terms(0, 0, 0), None)
        case Some(p) => PanelOrder(actor, panel, plan, Quoted, PlanTerms(w.catalog.plans[p].form), None);
      w.(catalog := C.Served(w.catalog, C.Order(panel, plan)), orders := w.orders + [order])
  }

  function OrderMoved(w: World, id: nat, to: OrderStatus): World
    requires id < |w.orders|
  {
    w.(orders := w.orders[id := w.orders[id].(status := to)])
  }

  function CustomerMoved(w: World, actor: nat, id: nat, to: OrderStatus): World {
    if to !in {Confirmed, PaymentDeclared, Cancelled} || !CanMove(w, id, to) || w.orders[id].actor != actor then w
    else OrderMoved(w, id, to)
  }

  function OrderQuoted(w: World, org: nat, id: nat, terms: Terms): World {
    if !CanMove(w, id, Quoted) || !Sells(w.catalog, w.orders[id].panel, org) then w
    else w.(orders := w.orders[id := w.orders[id].(status := Quoted, terms := terms)])
  }

  function OrderRejected(w: World, org: nat, id: nat): World {
    if !CanMove(w, id, Rejected) || !Sells(w.catalog, w.orders[id].panel, org) then w else OrderMoved(w, id, Rejected)
  }

  /** approve_panel_order: organization, closure, contract, account, binding and opening balance in one commit. */
  function OrderApproved(w: World, org: nat, id: nat, slugFree: bool, bindAs: Option<nat>): World {
    if !CanMove(w, id, Approved) || !Sells(w.catalog, w.orders[id].panel, org) || org >= |w.shop.tree.orgs|
       || !DepthAllowed(w.shop.tree, org) || !slugFree || (bindAs.Some? && bindAs.value in w.shop.bindings) then w
    else
      var o, child := w.orders[id], |w.shop.tree.orgs|;
      var grown := Grown(w, AddChild(w.shop.tree, org, o.terms.credit, DEFAULT_DEPTH, o.terms.price));
      var bound := if bindAs.Some? then WithBinding(grown, bindAs.value, child, o.panel) else grown;
      var (paid, outcome) := Pay(bound, System, Org(child), o.terms.amount, OrderKey(id), false);
      if outcome.Refused? then w
      else paid.(orders := w.orders[id := o.(status := Approved, org := Some(child))])
  }

  // ---- one request ----

  function Step(w: World, act: Act): World {
    match act
    case Usage(b, x) => w.(shop := M.UsageOnce(w.shop, b, x))
    case UsageBatch(items) => (match M.Batch(w.shop, items) case None => w case Some(shop) => w.(shop := shop))
    case Fund(org, paid, text) => FundCalled(w, org, paid, text)
    case CreateRoot(credit) => Grown(w, AddRoot(w.shop.tree, credit, DEFAULT_DEPTH))
    case CreateChild(parent, credit, price, checked) => CreatedChild(w, parent, credit, price, checked)
    case ToggleReseller(parent, org) => Toggled(w, parent, org)
    case AddPanel(owner, coef) =>
      WithCoefficient(w.(catalog := C.Next(w.catalog, C.AddPanel(owner))), w.catalog.next, coef)
    case SetCoefficient(org, panel, coef) => if C.OwnedPanel(w.catalog, panel, org) then WithCoefficient(w, panel, coef) else w
    case Bind(id, org, panel) => BindingAdded(w, id, org, panel)
    case Manage(r) => if r.AddPanel? || r.Order? then w else w.(catalog := C.Next(w.catalog, r))
    case RequestFunding(org, paid) => FundingAsked(w, org, paid)
    case DecideFunding(branch, id, approve, rootless) => FundingDecided(w, branch, id, approve, rootless)
    case RequestAdjustment(actor, org, target, amount, now) => AdjustmentAsked(w, actor, org, target, amount, now)
    case DecideApproval(id, approve, now) => ApprovalDecided(w, id, approve, now)
    case PlaceOrder(actor, panel, plan) => OrderPlaced(w, actor, panel, plan)
    case CustomerStep(actor, id, to) => CustomerMoved(w, actor, id, to)
    case Quote(org, id, paid, credit, rate) => OrderQuoted(w, org, id, Terms(paid, credit, rate))
    case RejectOrder(org, id) => OrderRejected(w, org, id)
    case ApproveOrder(org, id, slugFree, bindAs) => OrderApproved(w, org, id, slugFree, bindAs)
  }

  /** Nothing yet: no organization, no account, no row. */
  function Empty(): World {
    World(M.Shop(Books(map[], []), Tree([], [], map[]), map[], map[], map[]), C.Store(map[], map[], map[], {}, 0), [], [], [], [])
  }

  function After(acts: seq<Act>): World {
    if acts == [] then Empty() else Step(After(acts[..|acts| - 1]), acts[|acts| - 1])
  }
}
