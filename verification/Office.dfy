/**
 The desk as it is written: rows updated in place around the session of the kernel, each request
 ending in a commit or a rollback (src/control_plane/web_api.py, telegram_consumer.py). Every method
 is proved to do what the function of Desk for its request says.
 */
module Office {
  import opened Options
  import opened Ledger
  import opened Resellers
  import opened Desk
  import M = Metering
  import C = Catalog
  import S = Sessions

  /** The tables beside the kernel's. */
  datatype Rows = Rows(catalog: C.Store, fundings: seq<FundingRequest>, approvals: seq<Approval>, orders: seq<PanelOrder>)

  class Counter {
    const session: S.Session
    var catalog: C.Store
    var fundings: seq<FundingRequest>
    var approvals: seq<Approval>
    var orders: seq<PanelOrder>
    var committed: Rows
    ghost var calls: seq<FundCall>

    ghost function Now(): World
      reads this, session
    {
      World(session.Now(), catalog, fundings, approvals, orders, calls)
    }

    /** Nothing is pending: what this session sees is what the database holds. */
    ghost predicate Clean()
      reads this, session
    {
      session.Now() == session.committed && Rows(catalog, fundings, approvals, orders) == committed
    }

    constructor (s: S.Session, rows: Rows)
      requires s.Now() == s.committed
      ensures session == s && Clean() && Now() == World(s.Now(), rows.catalog, rows.fundings, rows.approvals, rows.orders, [])
    {
      session := s;
      catalog, fundings, approvals, orders := rows.catalog, rows.fundings, rows.approvals, rows.orders;
      committed, calls := rows, [];
    }

    method Commit()
      modifies this, session
      ensures Clean() && Now() == old(Now())
    {
      session.Commit();
      committed := Rows(catalog, fundings, approvals, orders);
    }

    method Rollback()
      modifies this, session
      ensures Clean()
      ensures Now() == World(old(session.committed), old(committed.catalog), old(committed.fundings), old(committed.approvals),
                             old(committed.orders), old(calls))
    {
      session.Rollback();
      catalog, fundings, approvals, orders := committed.catalog, committed.fundings, committed.approvals, committed.orders;
    }

    // ---- organizations ----

    method CreateReseller(parent: nat, credit: nat, price: nat, checked: bool) returns (id: Option<nat>)
      requires Clean()
      modifies this, session
      ensures Clean() && Now() == CreatedChild(old(Now()), parent, credit, price, checked)
      ensures id == if Now() == old(Now()) then None else Some(|old(session.orgs)|)
    {
      if parent >= |session.orgs| {
        return None;
      }
      id := session.CreateChild(parent, credit, DEFAULT_DEPTH, price, checked);
      Commit();
    }

    method SetResellerStatus(parent: nat, org: nat) returns (found: bool)
      requires Clean()
      modifies this, session
      ensures Clean() && Now() == Toggled(old(Now()), parent, org)
      ensures found == (Now() != old(Now()))
    {
      if org >= |session.orgs| || session.orgs[org].parent != Some(parent) {
        return false;
      }
      var row := session.orgs[org];
      session.orgs := session.orgs[org := row.(active := !row.active)];
      Commit();
      found := true;
    }

    // ---- funding ----

    method FundWallet(org: nat, amount: Positive, text: string) returns (ok: bool)
      requires Clean()
      modifies this, session
      ensures Clean() && Now() == FundCalled(old(Now()), org, amount, text)
      ensures ok == (org < |old(session.orgs)|) == (Now() != old(Now()))
    {
      var outcome := session.Fund(org, amount, text);
      ok := outcome.Some? && !outcome.value.Refused?;
      if ok {
        calls := calls + [FundCall(text, org, amount)];
      }
    }

    method AskFunding(org: nat, amount: Positive)
      requires Clean()
      modifies this, session
      ensures Clean() && Now() == FundingAsked(old(Now()), org, amount)
    {
      if org < |session.orgs| {
        fundings := fundings + [FundingRequest(org, amount, Asked)];
        Commit();
      }
    }

    method DecideFundingRequest(branch: nat, id: nat, approve: bool, rootless: bool) returns (ok: bool)
      requires Clean()
      modifies this, session
      ensures Clean() && Now() == FundingDecided(old(Now()), branch, id, approve, rootless)
      ensures ok == (Now() != old(Now()))
    {
      hide Transfer;
      if id >= |fundings| || fundings[id].status != Asked || fundings[id].org >= |session.orgs| {
        return false;
      }
      var f := fundings[id];
      var parent := session.orgs[f.org].parent;
      if parent != Some(branch) && !(rootless && parent == None) {
        return false;
      }
      if approve {
        var outcome := session.Transfer(System, Org(f.org), f.amount, FundingKey(id), false);
        if outcome.Refused? {
          Rollback();
          return false;
        }
        fundings := fundings[id := f.(status := Funded)];
      } else {
        fundings := fundings[id := f.(status := Denied)];
      }
      Commit();
      ok := true;
    }

    // ---- corrections ----

    method ApplyAdjustment(id: nat, a: Approval) returns (outcome: Outcome)
      modifies session`accounts, session`journal
      ensures (Now(), outcome) == Applied(old(Now()), id, a)
    {
      if a.amount > 0 {
        outcome := session.Transfer(System, Org(a.target), a.amount, ApprovalKey(id), false);
      } else {
        outcome := session.Transfer(Org(a.target), System, -a.amount, ApprovalKey(id), true);
      }
    }

    method AskAdjustment(actor: nat, org: nat, target: nat, amount: int, now: int) returns (ok: bool)
      requires Clean()
      modifies this, session
      ensures Clean() && Now() == AdjustmentAsked(old(Now()), actor, org, target, amount, now)
      ensures ok == (Now() != old(Now()))
    {
      if target >= |session.orgs| || (org != target && session.orgs[target].parent != Some(org)) || amount == 0 {
        return false;
      }
      var id := |approvals|;
      var a := Approval(actor, None, target, amount, now + APPROVAL_TTL, Open, None);
      if actor == ROOT {
        var outcome := ApplyAdjustment(id, a);
        if outcome.Refused? {
          Rollback();
          return false;
        }
        a := a.(approver := Some(actor), status := Executed, decidedAt := Some(now));
      }
      approvals := approvals + [a];
      Commit();
      ok := true;
    }

    /** An expired correction is written as such even though the request fails. */
    method DecideCorrection(id: nat, approve: bool, now: int) returns (ok: bool)
      requires Clean()
      modifies this, session
      ensures Clean() && Now() == ApprovalDecided(old(Now()), id, approve, now)
      ensures ok == (id < |approvals| && approvals[id] != old(approvals)[id] && approvals[id].status != Expired)
    {
      if id >= |approvals| || approvals[id].status != Open {
        return false;
      }
      var a := approvals[id].(decidedAt := Some(now));
      if a.expiresAt <= now {
        approvals := approvals[id := a.(status := Expired)];
        Commit();
        return false;
      }
      if !approve {
        a := a.(status := TurnedDown);
      } else {
        var outcome := ApplyAdjustment(id, a);
        if outcome.Refused? {
          Rollback();
          return false;
        }
        a := a.(status := Executed);
      }
      approvals := approvals[id := a.(approver := Some(ROOT))];
      Commit();
      ok := true;
    }

    // ---- orders ----

    method CreatePanelOrder(actor: nat, panel: nat, plan: Option<nat>) returns (ok: bool)
      requires Clean()
      modifies this, session
      ensures Clean() && Now() == OrderPlaced(old(Now()), actor, panel, plan)
      ensures ok == (Now() != old(Now()))
    {
      if !C.OpenPanel(catalog, panel) || (plan.Some? && !C.PricedPlan(catalog, panel, plan.value)) {
        return false;
      }
      var order := PanelOrder(actor, panel, plan, Pending, Terms(0, 0, 0), None);
      if plan.Some? {
        order := order.(terms := PlanTerms(catalog.plans[plan.value].form), status := Quoted);
        catalog := catalog.(ordered := catalog.ordered + {plan.value});
      }
      orders := orders + [order];
      Commit();
      ok := true;
    }

    method AdvanceCustomerOrder(actor: nat, id: nat, to: OrderStatus) returns (ok: bool)
      requires Clean()
      modifies this, session
      ensures Clean() && Now() == CustomerMoved(old(Now()), actor, id, to)
      ensures ok == (Now() != old(Now()))
    {
      if to !in {Confirmed, PaymentDeclared, Cancelled} || id >= |orders| || to !in OrderFlow(orders[id].status)
         || orders[id].actor != actor {
        return false;
      }
      orders := orders[id := orders[id].(status := to)];
      Commit();
      ok := true;
    }

    method QuotePanelOrder(org: nat, id: nat, amount: Positive, credit: nat, rate: Positive) returns (ok: bool)
      requires Clean()
      modifies this, session
      ensures Clean() && Now() == OrderQuoted(old(Now()), org, id, Terms(amount, credit, rate))
      ensures ok == (Now() != old(Now()))
    {
      if id >= |orders| || Quoted !in OrderFlow(orders[id].status) || !Sells(catalog, orders[id].panel, org) {
        return false;
      }
      orders := orders[id := orders[id].(terms := Terms(amount, credit, rate), status := Quoted)];
      Commit();
      ok := true;
    }

    method RejectPanelOrder(org: nat, id: nat) returns (ok: bool)
      requires Clean()
      modifies this, session
      ensures Clean() && Now() == OrderRejected(old(Now()), org, id)
      ensures ok == (Now() != old(Now()))
    {
      if id >= |orders| || Rejected !in OrderFlow(orders[id].status) || !Sells(catalog, orders[id].panel, org) {
        return false;
      }
      orders := orders[id := orders[id].(status := Rejected)];
      Commit();
      ok := true;
    }

    /** The customer's organization with its closure rows, contract, account and, if wanted, binding; not yet committed. */
    method OpenAccount(org: nat, o: PanelOrder, bindAs: Option<nat>) returns (child: Option<nat>)
      requires org < |session.orgs|
      modifies session
      ensures session.committed == old(session.committed)
      ensures child == if DepthAllowed(old(session.Tree()), org) then Some(|old(session.orgs)|) else None
      ensures child.Some? ==>
                var tree := AddChild(old(session.Tree()), org, o.terms.credit, DEFAULT_DEPTH, o.terms.price);
                var grown := Grown(old(Now()), tree);
                Now() == if bindAs.Some? then WithBinding(grown, bindAs.value, child.value, o.panel) else grown
      ensures child == None ==> Now() == old(Now())
    {
      hide CopiedRows, DepthAllowed;
      child := session.CreateChild(org, o.terms.credit, DEFAULT_DEPTH, o.terms.price, true);
      if child.Some? && bindAs.Some? {
        session.bindings := session.bindings[bindAs.value := M.Binding(child.value, o.panel)];
      }
    }

    method ApprovePanelOrder(org: nat, id: nat, slugFree: bool, bindAs: Option<nat>) returns (ok: bool)
      requires Clean()
      modifies this, session
      ensures Clean() && Now() == OrderApproved(old(Now()), org, id, slugFree, bindAs)
      ensures ok == (Now() != old(Now()))
    {
      hide AddChild, DepthAllowed, Transfer, Grown, WithBinding;
      if id >= |orders| || Approved !in OrderFlow(orders[id].status) || !Sells(catalog, orders[id].panel, org)
         || org >= |session.orgs| || !slugFree || (bindAs.Some? && bindAs.value in session.bindings) {
        return false;
      }
      var o := orders[id];
      var child := OpenAccount(org, o, bindAs);
      if child == None {
        return false;
      }
      var outcome := session.Transfer(System, Org(child.value), o.terms.amount, OrderKey(id), false);
      if outcome.Refused? {
        Rollback();
        return false;
      }
      orders := orders[id := o.(status := Approved, org := child)];
      Commit();
      ok := true;
    }
  }
}
