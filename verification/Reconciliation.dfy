/**
 The machines of the desk against the journal: a request was decided in someone's favour exactly
 when its one transaction is on file, and together they explain what SYSTEM has paid.
 */
module Reconciliation {
  import opened Options
  import opened Sums
  import opened Ledger
  import opened Resellers
  import opened Desk
  import C = Catalog

  datatype Kind = ForUsage | ForFunding | ForOrder | ForApproval | ForCall

  function KindOf(key: Key): Kind {
    match key
    case UsageKey(_, _, _, _) => ForUsage
    case FundingKey(_) => ForFunding
    case OrderKey(_) => ForOrder
    case ApprovalKey(_) => ForApproval
    case ExternalKey(_) => ForCall
  }

  /** The journal has grown by transactions of one kind only. */
  ghost predicate GrownBy(before: seq<Tx>, after: seq<Tx>, kind: Kind) {
    before <= after && forall i :: |before| <= i < |after| ==> KindOf(after[i].key) == kind
  }

  lemma HasStays(before: seq<Tx>, after: seq<Tx>, kind: Kind, key: Key)
    requires GrownBy(before, after, kind) && KindOf(key) != kind
    ensures Has(after, key) <==> Has(before, key)
  {
    if i :| 0 <= i < |before| && before[i].key == key { assert after[i].key == key; }
    if i :| 0 <= i < |after| && after[i].key == key { assert i < |before| && before[i].key == key; }
  }

  /** One more transaction: its key is on file now, and no other key has changed. */
  lemma HasAppended(journal: seq<Tx>, t: Tx, key: Key)
    ensures Has(journal + [t], key) <==> Has(journal, key) || key == t.key
  {
    if i :| 0 <= i < |journal| && journal[i].key == key { assert (journal + [t])[i].key == key; }
    assert (journal + [t])[|journal|].key == t.key;
  }

  // ---- funding requests ----

  function FundingTx(id: nat, f: FundingRequest): Tx {
    TransferTx(System, Org(f.org), f.amount, FundingKey(id))
  }

  ghost predicate FundingFiled(journal: seq<Tx>, id: nat, f: FundingRequest) {
    (f.status == Funded <==> Has(journal, FundingKey(id))) && (f.status == Funded ==> FundingTx(id, f) in journal)
  }

  /** A funding request is approved if and only if its one transaction exists, with its amount and wallet. */
  ghost predicate FundingsOk(journal: seq<Tx>, fundings: seq<FundingRequest>, n: nat) {
    && (forall i :: 0 <= i < |fundings| ==> fundings[i].org < n && fundings[i].amount > 0 && FundingFiled(journal, i, fundings[i]))
    && (forall i: nat :: i >= |fundings| ==> !Has(journal, FundingKey(i)))
  }

  function FundingAmounts(fundings: seq<FundingRequest>): seq<int> {
    seq(|fundings|, i requires 0 <= i < |fundings| => if fundings[i].status == Funded then fundings[i].amount else 0)
  }

  lemma FundingsStay(before: seq<Tx>, after: seq<Tx>, kind: Kind, fundings: seq<FundingRequest>, n: nat, m: nat)
    requires FundingsOk(before, fundings, n) && n <= m && GrownBy(before, after, kind) && kind != ForFunding
    ensures FundingsOk(after, fundings, m)
  {
    hide Has;
    forall i: nat ensures Has(after, FundingKey(i)) <==> Has(before, FundingKey(i)) {
      HasStays(before, after, kind, FundingKey(i));
    }
    forall i | 0 <= i < |fundings| ensures FundingFiled(after, i, fundings[i]) {
      assert FundingFiled(before, i, fundings[i]);
    }
  }

  lemma FundingAdded(journal: seq<Tx>, fundings: seq<FundingRequest>, n: nat, f: FundingRequest)
    requires FundingsOk(journal, fundings, n) && f.org < n && f.amount > 0 && f.status == Asked
    ensures FundingsOk(journal, fundings + [f], n)
    ensures Sum(FundingAmounts(fundings + [f])) == Sum(FundingAmounts(fundings))
  {
    hide Has;
    assert FundingAmounts(fundings + [f]) == FundingAmounts(fundings) + [0];
    SumAppend(FundingAmounts(fundings), 0);
  }

  lemma FundingDenied(journal: seq<Tx>, fundings: seq<FundingRequest>, n: nat, id: nat)
    requires FundingsOk(journal, fundings, n) && id < |fundings| && fundings[id].status == Asked
    ensures var after := fundings[id := fundings[id].(status := Denied)];
            FundingsOk(journal, after, n) && Sum(FundingAmounts(after)) == Sum(FundingAmounts(fundings))
  {
    hide Has;
    var after := fundings[id := fundings[id].(status := Denied)];
    assert FundingFiled(journal, id, fundings[id]);
    assert FundingAmounts(after) == FundingAmounts(fundings);
  }

  lemma FundingGranted(journal: seq<Tx>, fundings: seq<FundingRequest>, n: nat, id: nat)
    requires FundingsOk(journal, fundings, n) && id < |fundings| && fundings[id].status == Asked
    ensures var f := fundings[id];
            var after := fundings[id := f.(status := Funded)];
            && FundingsOk(journal + [FundingTx(id, f)], after, n)
            && Sum(FundingAmounts(after)) == Sum(FundingAmounts(fundings)) + f.amount
  {
    hide Has;
    var f := fundings[id];
    var later, after := journal + [FundingTx(id, f)], fundings[id := f.(status := Funded)];
    assert FundingTx(id, f) == FundingTx(id, after[id]);
    forall i: nat ensures Has(later, FundingKey(i)) <==> Has(journal, FundingKey(i)) || i == id {
      HasAppended(journal, FundingTx(id, f), FundingKey(i));
    }
    forall i | 0 <= i < |after| ensures FundingFiled(later, i, after[i]) {
      assert FundingFiled(journal, i, fundings[i]);
    }
    assert FundingAmounts(after) == FundingAmounts(fundings)[id := f.amount];
    SumUpdate(FundingAmounts(fundings), id, f.amount);
  }

  // ---- wallet corrections ----

  function ApprovalTx(id: nat, a: Approval): Tx {
    if a.amount > 0 then TransferTx(System, Org(a.target), a.amount, ApprovalKey(id))
    else TransferTx(Org(a.target), System, -a.amount, ApprovalKey(id))
  }

  ghost predicate ApprovalFiled(journal: seq<Tx>, id: nat, a: Approval) {
    (a.status == Executed <==> Has(journal, ApprovalKey(id))) && (a.status == Executed ==> ApprovalTx(id, a) in journal)
  }

  /** Open corrections were asked for by someone other than the root, who alone executes, and only before expiry. */
  predicate WellDecided(a: Approval) {
    && a.amount != 0
    && (a.status == Open ==> a.requester != ROOT)
    && (a.status == Executed ==> a.approver == Some(ROOT) && a.decidedAt.Some? && a.decidedAt.value < a.expiresAt)
  }

  /** A correction is executed if and only if its one transaction exists, with its amount, sign and wallet. */
  ghost predicate ApprovalsOk(journal: seq<Tx>, approvals: seq<Approval>, n: nat) {
    && (forall i :: 0 <= i < |approvals| ==>
          approvals[i].target < n && WellDecided(approvals[i]) && ApprovalFiled(journal, i, approvals[i]))
    && (forall i: nat :: i >= |approvals| ==> !Has(journal, ApprovalKey(i)))
  }

  function ApprovalAmounts(approvals: seq<Approval>): seq<int> {
    seq(|approvals|, i requires 0 <= i < |approvals| => if approvals[i].status == Executed then approvals[i].amount else 0)
  }

  lemma ApprovalsStay(before: seq<Tx>, after: seq<Tx>, kind: Kind, approvals: seq<Approval>, n: nat, m: nat)
    requires ApprovalsOk(before, approvals, n) && n <= m && GrownBy(before, after, kind) && kind != ForApproval
    ensures ApprovalsOk(after, approvals, m)
  {
    hide Has, WellDecided;
    forall i: nat ensures Has(after, ApprovalKey(i)) <==> Has(before, ApprovalKey(i)) {
      HasStays(before, after, kind, ApprovalKey(i));
    }
    forall i | 0 <= i < |approvals| ensures ApprovalFiled(after, i, approvals[i]) {
      assert ApprovalFiled(before, i, approvals[i]);
    }
  }

  /** An open correction is decided without money, or a new one is filed. */
  lemma ApprovalWritten(journal: seq<Tx>, approvals: seq<Approval>, n: nat, id: nat, a: Approval)
    requires ApprovalsOk(journal, approvals, n) && id <= |approvals| && a.target < n && WellDecided(a) && a.status != Executed
    requires id < |approvals| ==> approvals[id].status == Open
    ensures var after := if id < |approvals| then approvals[id := a] else approvals + [a];
            ApprovalsOk(journal, after, n) && Sum(ApprovalAmounts(after)) == Sum(ApprovalAmounts(approvals))
  {
    hide Has, WellDecided;
    var after := if id < |approvals| then approvals[id := a] else approvals + [a];
    if id < |approvals| {
      assert ApprovalFiled(journal, id, approvals[id]);
      assert ApprovalAmounts(after) == ApprovalAmounts(approvals);
    } else {
      assert ApprovalAmounts(after) == ApprovalAmounts(approvals) + [0];
      SumAppend(ApprovalAmounts(approvals), 0);
    }
  }

  /** An open correction is executed, or the root's own is filed as executed. */
  lemma ApprovalExecuted(journal: seq<Tx>, approvals: seq<Approval>, n: nat, id: nat, a: Approval)
    requires ApprovalsOk(journal, approvals, n) && id <= |approvals| && a.target < n && WellDecided(a) && a.status == Executed
    requires id < |approvals| ==> approvals[id].status == Open
    ensures var after := if id < |approvals| then approvals[id := a] else approvals + [a];
            && ApprovalsOk(journal + [ApprovalTx(id, a)], after, n)
            && Sum(ApprovalAmounts(after)) == Sum(ApprovalAmounts(approvals)) + a.amount
  {
    hide Has, WellDecided;
    var after := if id < |approvals| then approvals[id := a] else approvals + [a];
    var later := journal + [ApprovalTx(id, a)];
    forall i: nat ensures Has(later, ApprovalKey(i)) <==> Has(journal, ApprovalKey(i)) || i == id {
      HasAppended(journal, ApprovalTx(id, a), ApprovalKey(i));
    }
    forall i | 0 <= i < |after| ensures ApprovalFiled(later, i, after[i]) {
      assert i < |approvals| ==> ApprovalFiled(journal, i, approvals[i]);
    }
    if id < |approvals| {
      assert ApprovalAmounts(after) == ApprovalAmounts(approvals)[id := a.amount];
      SumUpdate(ApprovalAmounts(approvals), id, a.amount);
    } else {
      assert ApprovalAmounts(after) == ApprovalAmounts(approvals) + [a.amount];
      SumAppend(ApprovalAmounts(approvals), a.amount);
    }
  }

  // ---- orders ----

  function OrderTx(id: nat, o: PanelOrder): Tx
    requires o.org.Some?
  {
    TransferTx(System, Org(o.org.value), o.terms.amount, OrderKey(id))
  }

  predicate Priced(status: OrderStatus) {
    status in {Quoted, Confirmed, PaymentDeclared, Approved}
  }

  ghost predicate OrderFiled(journal: seq<Tx>, id: nat, o: PanelOrder) {
    && (o.status == Approved <==> o.org.Some?)
    && (o.status == Approved <==> Has(journal, OrderKey(id)))
    && (o.status == Approved ==> OrderTx(id, o) in journal)
  }

  /** The account of an approved order: a child of the server's owner on the quoted credit and rate. */
  predicate AccountMade(tree: Tree, catalog: C.Store, o: PanelOrder) {
    o.org.Some? ==>
      && o.org.value < |tree.orgs| && tree.orgs[o.org.value].credit == o.terms.credit
      && o.org.value in tree.contracts && tree.contracts[o.org.value].price == o.terms.price
      && Sells(catalog, o.panel, tree.contracts[o.org.value].parent)
  }

  predicate TermsOk(o: PanelOrder) {
    o.terms.credit >= 0 && (Priced(o.status) ==> o.terms.amount > 0)
  }

  /** Organization, contract and the one transaction of exactly the quoted amount exist if and only if the order is approved. */
  ghost predicate OrdersOk(journal: seq<Tx>, orders: seq<PanelOrder>, tree: Tree, catalog: C.Store) {
    && (forall i :: 0 <= i < |orders| ==>
          TermsOk(orders[i]) && OrderFiled(journal, i, orders[i]) && AccountMade(tree, catalog, orders[i]))
    && (forall i, j :: 0 <= i < j < |orders| && orders[i].org.Some? ==> orders[i].org != orders[j].org)
    && (forall i: nat :: i >= |orders| ==> !Has(journal, OrderKey(i)))
  }

  function OrderAmounts(orders: seq<PanelOrder>): seq<int> {
    seq(|orders|, i requires 0 <= i < |orders| => if orders[i].status == Approved then orders[i].terms.amount else 0)
  }

  /** Organizations keep their credit, contracts stand, servers keep their owner. */
  ghost predicate Keeps(tree: Tree, catalog: C.Store, tree2: Tree, catalog2: C.Store) {
    && |tree.orgs| <= |tree2.orgs|
    && (forall i :: 0 <= i < |tree.orgs| ==> tree2.orgs[i].credit == tree.orgs[i].credit)
    && (forall i :: i in tree.contracts ==> i in tree2.contracts && tree2.contracts[i] == tree.contracts[i])
    && (forall p :: p in catalog.panels ==> p in catalog2.panels && catalog2.panels[p].owner == catalog.panels[p].owner)
  }

  lemma OrdersStay(before: seq<Tx>, after: seq<Tx>, kind: Kind, orders: seq<PanelOrder>, tree: Tree, catalog: C.Store,
                   tree2: Tree, catalog2: C.Store)
    requires OrdersOk(before, orders, tree, catalog) && GrownBy(before, after, kind) && kind != ForOrder
    requires Keeps(tree, catalog, tree2, catalog2)
    ensures OrdersOk(after, orders, tree2, catalog2)
  {
    hide Has, TermsOk;
    forall i: nat ensures Has(after, OrderKey(i)) <==> Has(before, OrderKey(i)) {
      HasStays(before, after, kind, OrderKey(i));
    }
    forall i | 0 <= i < |orders| ensures OrderFiled(after, i, orders[i]) && AccountMade(tree2, catalog2, orders[i]) {
      assert OrderFiled(before, i, orders[i]) && AccountMade(tree, catalog, orders[i]);
    }
  }

  lemma NoAccountYet(tree: Tree, catalog: C.Store, o: PanelOrder)
    requires o.org == None
    ensures AccountMade(tree, catalog, o)
  {}

  /** A new order, or a step of one that neither was nor becomes approved. */
  lemma OrderWritten(journal: seq<Tx>, orders: seq<PanelOrder>, tree: Tree, catalog: C.Store, id: nat, o: PanelOrder)
    requires OrdersOk(journal, orders, tree, catalog) && id <= |orders| && TermsOk(o) && o.status != Approved && o.org == None
    requires id < |orders| ==> orders[id].status != Approved
    ensures var after := if id < |orders| then orders[id := o] else orders + [o];
            OrdersOk(journal, after, tree, catalog) && Sum(OrderAmounts(after)) == Sum(OrderAmounts(orders))
  {
    hide Has, TermsOk, AccountMade, OrderTx;
    assert AccountMade(tree, catalog, o) by { NoAccountYet(tree, catalog, o); }
    var after := if id < |orders| then orders[id := o] else orders + [o];
    if id < |orders| {
      assert OrderFiled(journal, id, orders[id]);
      assert OrderAmounts(after) == OrderAmounts(orders);
    } else {
      assert OrderAmounts(after) == OrderAmounts(orders) + [0];
      SumAppend(OrderAmounts(orders), 0);
    }
  }

  lemma OrderGranted(journal: seq<Tx>, orders: seq<PanelOrder>, tree: Tree, catalog: C.Store, tree2: Tree, id: nat, o: PanelOrder)
    requires OrdersOk(journal, orders, tree, catalog) && id < |orders| && orders[id].status != Approved
    requires Keeps(tree, catalog, tree2, catalog) && AccountMade(tree2, catalog, o) && TermsOk(o)
    requires o.status == Approved && o.org.Some? && o.org.value >= |tree.orgs|
    ensures var after := orders[id := o];
            && OrdersOk(journal + [OrderTx(id, o)], after, tree2, catalog)
            && Sum(OrderAmounts(after)) == Sum(OrderAmounts(orders)) + o.terms.amount
  {
    hide Has, TermsOk;
    var later, after := journal + [OrderTx(id, o)], orders[id := o];
    forall i: nat ensures Has(later, OrderKey(i)) <==> Has(journal, OrderKey(i)) || i == id {
      HasAppended(journal, OrderTx(id, o), OrderKey(i));
    }
    forall i | 0 <= i < |after| ensures OrderFiled(later, i, after[i]) && AccountMade(tree2, catalog, after[i]) {
      assert OrderFiled(journal, i, orders[i]) && AccountMade(tree, catalog, orders[i]);
    }
    forall i, j | 0 <= i < j < |after| && after[i].org.Some? ensures after[i].org != after[j].org {
      assert AccountMade(tree, catalog, orders[i]) && AccountMade(tree, catalog, orders[j]);
    }
    assert OrderAmounts(after) == OrderAmounts(orders)[id := o.terms.amount];
    SumUpdate(OrderAmounts(orders), id, o.terms.amount);
  }

  // ---- calls of the funding API ----

  predicate Called(calls: seq<FundCall>, text: string) {
    exists i :: 0 <= i < |calls| && calls[i].text == text
  }

  /** What the calls are worth when each distinct key counts once, with the amount it was first used for. */
  function CallTotal(calls: seq<FundCall>): int {
    if calls == [] then 0
    else
      var early, last := calls[..|calls| - 1], calls[|calls| - 1];
      CallTotal(early) + (if Called(early, last.text) then 0 else last.amount)
  }

  ghost predicate CallsOk(journal: seq<Tx>, calls: seq<FundCall>) {
    forall text: string :: Has(journal, ExternalKey(text)) <==> Called(calls, text)
  }

  lemma CallsStay(before: seq<Tx>, after: seq<Tx>, kind: Kind, calls: seq<FundCall>)
    requires CallsOk(before, calls) && GrownBy(before, after, kind) && kind != ForCall
    ensures CallsOk(after, calls)
  {
    hide Has;
    forall text: string ensures Has(after, ExternalKey(text)) <==> Called(calls, text) {
      HasStays(before, after, kind, ExternalKey(text));
    }
  }

  lemma CallAdded(calls: seq<FundCall>, c: FundCall, text: string)
    ensures Called(calls + [c], text) <==> Called(calls, text) || text == c.text
    ensures CallTotal(calls + [c]) == CallTotal(calls) + (if Called(calls, c.text) then 0 else c.amount)
  {
    assert (calls + [c])[..|calls|] == calls && (calls + [c])[|calls|] == c;
    if i :| 0 <= i < |calls| && calls[i].text == text { assert (calls + [c])[i].text == text; }
  }

  /** A call under a new key is filed, a repeated one is answered from the journal. */
  lemma CallFiled(journal: seq<Tx>, calls: seq<FundCall>, c: FundCall)
    requires CallsOk(journal, calls)
    ensures var after := if Called(calls, c.text) then journal
                         else journal + [TransferTx(System, Org(c.org), c.amount, ExternalKey(c.text))];
            CallsOk(after, calls + [c])
  {
    hide Has;
    var t := TransferTx(System, Org(c.org), c.amount, ExternalKey(c.text));
    forall text: string ensures Called(calls + [c], text) <==> Called(calls, text) || text == c.text {
      CallAdded(calls, c, text);
    }
    forall text: string ensures Has(journal + [t], ExternalKey(text)) <==> Has(journal, ExternalKey(text)) || text == c.text {
      HasAppended(journal, t, ExternalKey(text));
    }
  }
}
