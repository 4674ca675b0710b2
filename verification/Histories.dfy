/** Orders, corrections and funding requests over whole runs of the desk. */
module Histories {
  import opened Options
  import opened Ledger
  import opened Resellers
  import opened Desk
  import opened Reconciliation
  import opened Treasury
  import opened Worlds
  import M = Metering
  import C = Catalog

  lemma AfterNext(acts: seq<Act>, act: Act)
    ensures After(acts + [act]) == Step(After(acts), act)
  {
    assert (acts + [act])[..|acts|] == acts;
  }

  // ---- orders ----

  /** What a request may do to an order: nothing, or one step of the flow; the terms are set while it is pending. */
  predicate OrderMove(o: PanelOrder, p: PanelOrder) {
    && p.actor == o.actor && p.panel == o.panel && p.plan == o.plan
    && (p == o || p.status in OrderFlow(o.status))
    && (o.status != Pending ==> p.terms == o.terms)
    && (p.terms != o.terms ==> p.status == Quoted)
    && (p.org != o.org ==> p.status == Approved)
  }

  /** What a new order looks like. */
  predicate OrderBegins(o: PanelOrder) {
    o.org == None && o.status == (if o.plan.Some? then Quoted else Pending)
  }

  /** Every request moves each order by at most one step of the flow and adds at most one new order. */
  lemma OrdersMove(w: World, act: Act)
    ensures var next := Step(w, act);
            && |w.orders| <= |next.orders| <= |w.orders| + 1
            && (forall i :: 0 <= i < |w.orders| ==> OrderMove(w.orders[i], next.orders[i]))
            && (|next.orders| > |w.orders| ==> OrderBegins(next.orders[|w.orders|]))
  {
    hide Transfer, M.UsageOnce, M.Batch, AddChild, AddRoot, C.Next, DepthAllowed, PlanTerms, C.Served;
  }

  /** The states an order goes through, from the first to the present one. */
  function History(acts: seq<Act>, id: nat): seq<OrderStatus> {
    if acts == [] || id >= |After(acts).orders| then []
    else
      var early, now := History(acts[..|acts| - 1], id), After(acts).orders[id].status;
      if early != [] && early[|early| - 1] == now then early else early + [now]
  }

  function Rank(s: OrderStatus): nat {
    match s
    case Pending => 0
    case Quoted => 1
    case Confirmed => 2
    case PaymentDeclared => 3
    case _ => 4
  }

  predicate IsPath(states: seq<OrderStatus>) {
    forall i :: 0 <= i < |states| - 1 ==> states[i + 1] in OrderFlow(states[i])
  }

  /** Every order's history is a path of the flow of at most four steps, from pending, or from quoted for a plan order. */
  lemma {:induction false} HistoryIsPath(acts: seq<Act>, id: nat)
    requires id < |After(acts).orders|
    ensures var states, o := History(acts, id), After(acts).orders[id];
            && states != [] && IsPath(states) && |states| - 1 <= 4
            && states[0] == (if o.plan.Some? then Quoted else Pending)
            && states[|states| - 1] == o.status && |states| <= Rank(o.status) + 1
    decreases |acts|
  {
    hide Step;
    var n := |acts| - 1;
    OrdersMove(After(acts[..n]), acts[n]);
    if id < |After(acts[..n]).orders| {
      HistoryIsPath(acts[..n], id);
      assert OrderMove(After(acts[..n]).orders[id], After(acts).orders[id]);
    } else {
      assert History(acts[..n], id) == [];
    }
  }

  /** Once an order is past pending its terms never change, whatever is repriced, closed or deleted later. */
  lemma {:induction false} TermsFrozen(acts: seq<Act>, more: seq<Act>, id: nat)
    requires id < |After(acts).orders|
    ensures id < |After(acts + more).orders|
    ensures var o, p := After(acts).orders[id], After(acts + more).orders[id];
            && p.actor == o.actor && p.panel == o.panel && p.plan == o.plan
            && (o.status != Pending ==> p.terms == o.terms && p.status != Pending)
            && (o.status == Approved ==> p == o)
    decreases |more|
  {
    hide Step;
    if more == [] {
      assert acts + more == acts;
    } else {
      var n := |more| - 1;
      TermsFrozen(acts, more[..n], id);
      assert acts + more == (acts + more[..n]) + [more[n]];
      AfterNext(acts + more[..n], more[n]);
      OrdersMove(After(acts + more[..n]), more[n]);
      assert OrderMove(After(acts + more[..n]).orders[id], After(acts + more).orders[id]);
    }
  }

  /** A plan order costs rate times volume times days as published when it was placed, for good. */
  lemma PlanPriceStands(acts: seq<Act>, actor: nat, panel: nat, plan: nat, more: seq<Act>)
    requires C.Accepted(After(acts).catalog, C.Order(panel, Some(plan)))
    ensures var id, form := |After(acts).orders|, After(acts).catalog.plans[plan].form;
            var later := After(acts + [PlaceOrder(actor, panel, Some(plan))] + more);
            && id < |later.orders| && later.orders[id].plan == Some(plan)
            && later.orders[id].terms == Terms(form.price * form.daily * form.days,
                                               if form.credit != 0 then form.credit else form.price * form.daily * form.days,
                                               form.price)
            && later.orders[id].terms.amount > 0
  {
    var act := PlaceOrder(actor, panel, Some(plan));
    AfterNext(acts, act);
    TermsFrozen(acts + [act], more, |After(acts).orders|);
    PlanTermsPositive(After(acts).catalog.plans[plan].form);
  }

  /** No transaction has this key but this one, which is on file exactly when `filed`. */
  ghost predicate OnlyTx(journal: seq<Tx>, key: Key, filed: bool, t: Tx) {
    && (filed <==> exists i :: 0 <= i < |journal| && journal[i].key == key)
    && (filed ==> exists i :: 0 <= i < |journal| && journal[i] == t && forall j :: 0 <= j < |journal| && j != i ==> journal[j].key != key)
  }

  lemma UniqueTx(b: Books, t: Tx, filed: bool)
    requires Consistent(b) && (filed <==> Has(b.journal, t.key)) && (filed ==> t in b.journal)
    ensures OnlyTx(b.journal, t.key, filed, t)
  {
    if filed {
      var i :| 0 <= i < |b.journal| && b.journal[i] == t;
      assert forall j :: 0 <= j < |b.journal| && j != i ==> b.journal[j].key != t.key;
    }
  }

  /**
   An order is approved if and only if its account exists: a child of the server's owner with the
   quoted credit, a contract at the quoted rate, and one transaction of exactly the quoted amount.
   */
  lemma ApprovedIffAccount(acts: seq<Act>, id: nat)
    requires id < |After(acts).orders|
    ensures var w := After(acts);
            var o := w.orders[id];
            && (o.status == Approved <==> o.org.Some?)
            && (o.status != Approved ==> !Has(Journal(w), OrderKey(id)))
            && (o.status == Approved ==>
                  && o.terms.amount > 0 && OnlyTx(Journal(w), OrderKey(id), true, OrderTx(id, o))
                  && o.org.value in w.shop.tree.contracts
                  && var c := w.shop.tree.contracts[o.org.value];
                     c.active && c.price == o.terms.price && Sells(w.catalog, o.panel, c.parent)
                     && o.org.value < |w.shop.tree.orgs| && w.shop.tree.orgs[o.org.value].parent == Some(c.parent)
                     && w.shop.tree.orgs[o.org.value].credit == o.terms.credit)
  {
    hide FundingsOk, ApprovalsOk, CallsOk, Covered, Consistent, After, C.CatalogOk;
    AlwaysOk(acts);
    var w := After(acts);
    var o := w.orders[id];
    assert OrderFiled(Journal(w), id, o) && AccountMade(w.shop.tree, w.catalog, o) && TermsOk(o);
    if o.status == Approved { UniqueTx(w.shop.books, OrderTx(id, o), true); }
  }

  // ---- funding requests and corrections ----

  /** A funding request is approved if and only if its one transaction exists. */
  lemma FundedIffFiled(acts: seq<Act>, id: nat)
    requires id < |After(acts).fundings|
    ensures var w := After(acts);
            OnlyTx(Journal(w), FundingKey(id), w.fundings[id].status == Funded, FundingTx(id, w.fundings[id]))
  {
    hide OrdersOk, ApprovalsOk, CallsOk, Covered, Consistent, After, C.CatalogOk;
    AlwaysOk(acts);
    var w := After(acts);
    assert FundingFiled(Journal(w), id, w.fundings[id]);
    UniqueTx(w.shop.books, FundingTx(id, w.fundings[id]), w.fundings[id].status == Funded);
  }

  /** A correction is executed if and only if its one transaction exists, with its amount; and then it was decided in time. */
  lemma ExecutedIffFiled(acts: seq<Act>, id: nat)
    requires id < |After(acts).approvals|
    ensures var w := After(acts);
            var a := w.approvals[id];
            && OnlyTx(Journal(w), ApprovalKey(id), a.status == Executed, ApprovalTx(id, a))
            && (a.status == Executed ==> a.approver == Some(ROOT) && a.decidedAt.Some? && a.decidedAt.value < a.expiresAt)
  {
    hide OrdersOk, FundingsOk, CallsOk, Covered, Consistent, After, C.CatalogOk;
    AlwaysOk(acts);
    var w := After(acts);
    assert ApprovalFiled(Journal(w), id, w.approvals[id]) && WellDecided(w.approvals[id]);
    UniqueTx(w.shop.books, ApprovalTx(id, w.approvals[id]), w.approvals[id].status == Executed);
  }

  /** What a request may do to a correction or a funding request: decide it once. */
  lemma DecisionsMove(w: World, act: Act)
    ensures var next := Step(w, act);
            && |w.approvals| <= |next.approvals| && |w.fundings| <= |next.fundings|
            && (forall i :: 0 <= i < |w.approvals| ==>
                  && next.approvals[i].requester == w.approvals[i].requester
                  && next.approvals[i].target == w.approvals[i].target && next.approvals[i].amount == w.approvals[i].amount
                  && (w.approvals[i].status != Open ==> next.approvals[i] == w.approvals[i]))
            && (forall i :: 0 <= i < |w.fundings| ==>
                  && next.fundings[i].org == w.fundings[i].org && next.fundings[i].amount == w.fundings[i].amount
                  && (w.fundings[i].status != Asked ==> next.fundings[i] == w.fundings[i]))
  {
    hide Transfer, M.UsageOnce, M.Batch, AddChild, AddRoot, C.Next, DepthAllowed, PlanTerms, C.Served;
  }

  /** A decision is final: nothing that happens later changes it, and nothing ever changes what was asked for. */
  lemma {:induction false} DecidedOnce(acts: seq<Act>, more: seq<Act>)
    ensures var w, later := After(acts), After(acts + more);
            && |w.approvals| <= |later.approvals| && |w.fundings| <= |later.fundings|
            && (forall i :: 0 <= i < |w.approvals| ==>
                  && later.approvals[i].requester == w.approvals[i].requester
                  && later.approvals[i].target == w.approvals[i].target && later.approvals[i].amount == w.approvals[i].amount
                  && (w.approvals[i].status != Open ==> later.approvals[i] == w.approvals[i]))
            && (forall i :: 0 <= i < |w.fundings| ==>
                  && later.fundings[i].org == w.fundings[i].org && later.fundings[i].amount == w.fundings[i].amount
                  && (w.fundings[i].status != Asked ==> later.fundings[i] == w.fundings[i]))
    decreases |more|
  {
    hide Step;
    if more == [] {
      assert acts + more == acts;
    } else {
      var n := |more| - 1;
      DecidedOnce(acts, more[..n]);
      assert acts + more == (acts + more[..n]) + [more[n]];
      AfterNext(acts + more[..n], more[n]);
      DecisionsMove(After(acts + more[..n]), more[n]);
    }
  }

  /**
   Maker and checker differ: a correction that was ever committed as open and later executed was
   approved by someone other than its requester. The root's own requests are never committed open.
   */
  lemma MakerIsNotChecker(acts: seq<Act>, more: seq<Act>, id: nat)
    requires id < |After(acts).approvals| && After(acts).approvals[id].status == Open
    requires id < |After(acts + more).approvals| && After(acts + more).approvals[id].status == Executed
    ensures var a := After(acts + more).approvals[id];
            a.approver.Some? && a.approver.value != a.requester
  {
    hide After, ShopOk, FundingsOk, OrdersOk, CallsOk, C.CatalogOk, ApprovalFiled;
    AlwaysOk(acts);
    AlwaysOk(acts + more);
    DecidedOnce(acts, more);
    assert WellDecided(After(acts).approvals[id]) && WellDecided(After(acts + more).approvals[id]);
  }

  // ---- who can do what ----

  /** An order is confirmed, declared paid or cancelled by its customer alone, and quoted, rejected or approved by the seller alone. */
  lemma OnlyPartiesMoveOrders(w: World, act: Act, id: nat)
    requires id < |w.orders| && id < |Step(w, act).orders| && Step(w, act).orders[id] != w.orders[id]
    ensures var o, to := w.orders[id], Step(w, act).orders[id].status;
            if to in {Confirmed, PaymentDeclared, Cancelled} then act == CustomerStep(o.actor, id, to)
            else (if to == Approved then act.ApproveOrder? else act.Quote? || act.RejectOrder?)
                 && act.id == id && Sells(w.catalog, o.panel, act.org)
  {
    hide Transfer, M.UsageOnce, M.Batch, AddChild, AddRoot, C.Next, DepthAllowed, PlanTerms, C.Served;
  }

  /** A correction is asked for oneself or a direct child only; the root's own is filed as executed, anyone else's as open. */
  lemma OnlyOwnBranchIsCorrected(w: World, act: Act)
    requires |Step(w, act).approvals| > |w.approvals|
    ensures act.RequestAdjustment? && act.target < |w.shop.tree.orgs| && |Step(w, act).approvals| == |w.approvals| + 1
    ensures act.org == act.target || w.shop.tree.orgs[act.target].parent == Some(act.org)
    ensures var a := Step(w, act).approvals[|w.approvals|];
            && a.requester == act.actor && a.target == act.target && a.amount == act.amount != 0
            && a.status == (if act.actor == ROOT then Executed else Open) && a.expiresAt == act.now + APPROVAL_TTL
  {
    hide Transfer, M.UsageOnce, M.Batch, AddChild, AddRoot, C.Next, DepthAllowed, PlanTerms, C.Served;
  }

  /** The request decides this funding request, and its caller may. */
  predicate Decides(w: World, act: Act, id: nat) {
    && act.DecideFunding? && act.id == id && id < |w.fundings| && w.fundings[id].org < |w.shop.tree.orgs|
    && var parent := w.shop.tree.orgs[w.fundings[id].org].parent;
       parent == Some(act.branch) || (act.rootless && parent == None)
  }

  lemma DecideStep(w: World, act: Act, id: nat)
    requires id < |Step(w, act).fundings| && Step(w, act).fundings[id].status != Asked
    requires id >= |w.fundings| || w.fundings[id] != Step(w, act).fundings[id]
    ensures Decides(w, act, id) && act.approve == (Step(w, act).fundings[id].status == Funded)
  {
    hide Transfer, M.UsageOnce, M.Batch, AddChild, AddRoot, C.Next, DepthAllowed, PlanTerms, C.Served;
  }

  /** In every run, a funding request is approved or rejected only by its direct parent, or by the root where there is none. */
  lemma {:induction false} DecidedByParent(acts: seq<Act>, id: nat) returns (k: nat)
    requires id < |After(acts).fundings| && After(acts).fundings[id].status != Asked
    ensures k < |acts| && Decides(After(acts[..k]), acts[k], id)
    ensures acts[k].approve == (After(acts).fundings[id].status == Funded)
    decreases |acts|
  {
    hide Step, Decides;
    var n := |acts| - 1;
    var w := After(acts[..n]);
    if id < |w.fundings| && w.fundings[id] == After(acts).fundings[id] {
      k := DecidedByParent(acts[..n], id);
      assert acts[..n][..k] == acts[..k];
    } else {
      k := n;
      DecideStep(w, acts[n], id);
      DecideIs(w, acts[n], id);
    }
  }

  lemma DecideIs(w: World, act: Act, id: nat)
    requires Decides(w, act, id)
    ensures act.DecideFunding?
  {}

  /** The request makes the order reach this state. */
  predicate Reaches(w: World, act: Act, id: nat, to: OrderStatus) {
    && id < |w.orders| && w.orders[id].status != to && to in OrderFlow(w.orders[id].status)
    && id < |Step(w, act).orders| && Step(w, act).orders[id].status == to
  }

  /** A state that no order begins in was reached by some request. */
  lemma {:induction false} WhenReached(acts: seq<Act>, id: nat) returns (k: nat)
    requires id < |After(acts).orders| && After(acts).orders[id].status !in {Pending, Quoted}
    ensures k < |acts| && Reaches(After(acts[..k]), acts[k], id, After(acts).orders[id].status)
    ensures id < |After(acts[..k]).orders| && After(acts[..k]).orders[id].actor == After(acts).orders[id].actor
    ensures After(acts[..k]).orders[id].panel == After(acts).orders[id].panel
    decreases |acts|
  {
    hide Step;
    var n := |acts| - 1;
    var w, next := After(acts[..n]), After(acts);
    OrdersMove(w, acts[n]);
    if id < |w.orders| { assert OrderMove(w.orders[id], next.orders[id]); }
    if id < |w.orders| && w.orders[id].status == next.orders[id].status {
      k := WhenReached(acts[..n], id);
      assert acts[..n][..k] == acts[..k];
    } else {
      k := n;
    }
  }

  /**
   In every run, an approved order was first confirmed and then declared paid by its own customer, and
   last approved by the owner of its server.
   */
  lemma ApprovedWasPaid(acts: seq<Act>, id: nat) returns (i: nat, j: nat, k: nat)
    requires id < |After(acts).orders| && After(acts).orders[id].status == Approved
    ensures i < j < k < |acts|
    ensures acts[i] == CustomerStep(After(acts).orders[id].actor, id, Confirmed)
    ensures acts[j] == CustomerStep(After(acts).orders[id].actor, id, PaymentDeclared)
    ensures acts[k].ApproveOrder? && acts[k].id == id
            && Sells(After(acts[..k]).catalog, After(acts).orders[id].panel, acts[k].org)
  {
    hide Step, Sells;
    k := WhenReached(acts, id);
    OnlyPartiesMoveOrders(After(acts[..k]), acts[k], id);
    j := WhenReached(acts[..k], id);
    assert acts[..k][..j] == acts[..j];
    OnlyPartiesMoveOrders(After(acts[..j]), acts[j], id);
    i := WhenReached(acts[..j], id);
    assert acts[..j][..i] == acts[..i];
    OnlyPartiesMoveOrders(After(acts[..i]), acts[i], id);
  }

  /** The request closes this correction as it is closed: a decision of the root, which comes too late or not, or the root's own request. */
  predicate Closes(w: World, act: Act, id: nat, a: Approval) {
    || (act.DecideApproval? && act.id == id && id < |w.approvals| && w.approvals[id].status == Open
        && a.decidedAt == Some(act.now) && (a.status == Expired <==> a.expiresAt <= act.now)
        && (a.status == Executed ==> act.approve) && (a.status == TurnedDown ==> !act.approve)
        && (a.status != Expired ==> a.approver == Some(ROOT)))
    || (act.RequestAdjustment? && act.actor == ROOT && id == |w.approvals| && a.status == Executed && a.decidedAt == Some(act.now))
  }

  lemma CloseStep(w: World, act: Act, id: nat)
    requires id < |Step(w, act).approvals| && Step(w, act).approvals[id].status != Open
    requires id >= |w.approvals| || w.approvals[id] != Step(w, act).approvals[id]
    ensures Closes(w, act, id, Step(w, act).approvals[id])
  {
    hide Transfer, M.UsageOnce, M.Batch, AddChild, AddRoot, C.Next, DepthAllowed, PlanTerms, C.Served;
  }

  /**
   In every run, a correction is closed by one act of the root: it expires exactly when that comes at or
   after its expiry, and otherwise is executed or turned down as the root says; or it is the root's own.
   */
  lemma {:induction false} ClosedByRoot(acts: seq<Act>, id: nat) returns (k: nat)
    requires id < |After(acts).approvals| && After(acts).approvals[id].status != Open
    ensures k < |acts| && Closes(After(acts[..k]), acts[k], id, After(acts).approvals[id])
    decreases |acts|
  {
    hide Step, Closes;
    var n := |acts| - 1;
    var w := After(acts[..n]);
    if id < |w.approvals| && w.approvals[id] == After(acts).approvals[id] {
      k := ClosedByRoot(acts[..n], id);
      assert acts[..n][..k] == acts[..k];
    } else {
      k := n;
      CloseStep(w, acts[n], id);
    }
  }

  /** In every run, a correction was asked for by its requester, for the own organization or a direct child. */
  lemma {:induction false} AskedInOwnBranch(acts: seq<Act>, id: nat) returns (k: nat)
    requires id < |After(acts).approvals|
    ensures k < |acts| && acts[k].RequestAdjustment? && acts[k].actor == After(acts).approvals[id].requester
    ensures acts[k].target == After(acts).approvals[id].target && acts[k].amount == After(acts).approvals[id].amount
    ensures acts[k].target < |After(acts[..k]).shop.tree.orgs|
    ensures acts[k].org == acts[k].target || After(acts[..k]).shop.tree.orgs[acts[k].target].parent == Some(acts[k].org)
    decreases |acts|
  {
    hide Step;
    var n := |acts| - 1;
    var w := After(acts[..n]);
    DecisionsMove(w, acts[n]);
    if id < |w.approvals| {
      k := AskedInOwnBranch(acts[..n], id);
      assert acts[..n][..k] == acts[..k];
    } else {
      k := n;
      OnlyOwnBranchIsCorrected(w, acts[n]);
    }
  }
}
