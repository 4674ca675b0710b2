/** Where the rows of the desk came from, and who set what they say, over whole runs. */
module Origins {
  import opened Options
  import opened Ledger
  import opened Resellers
  import opened Desk
  import opened Worlds
  import opened Histories
  import opened Requests
  import M = Metering
  import C = Catalog
  import R = Runs

  // ---- orders ----

  /** What a request does to the orders: it moves rows on, or adds the one that was placed. */
  lemma OrdersCome(w: World, act: Act, id: nat)
    requires id < |Step(w, act).orders|
    ensures var o := Step(w, act).orders[id];
            if id < |w.orders| then OrderMove(w.orders[id], o)
            else
              && id == |w.orders| && act == PlaceOrder(o.actor, o.panel, o.plan) && OnSale(w.catalog, o.panel, o.plan)
              && o.status == (if o.plan == None then Pending else Quoted) && (o.plan == None ==> o.terms == Terms(0, 0, 0))
  {
    hide Transfer, M.UsageOnce, M.Batch, AddChild, AddRoot, C.Next, DepthAllowed, PlanTerms, C.Served, OnSale, C.Accepted;
    OrdersMove(w, act);
    if act.PlaceOrder? { OnSaleIs(w.catalog, act.panel, act.plan); }
  }

  /** Every order was placed by its customer, at its server and plan, when strangers could order there. */
  lemma {:induction false} OrderWasPlaced(acts: seq<Act>, id: nat) returns (k: nat)
    requires id < |After(acts).orders|
    ensures var o := After(acts).orders[id];
            && k < |acts| && acts[k] == PlaceOrder(o.actor, o.panel, o.plan)
            && id == |After(acts[..k]).orders| && OnSale(After(acts[..k]).catalog, o.panel, o.plan)
    decreases |acts|
  {
    hide Step, OnSale;
    var n := |acts| - 1;
    OrdersCome(After(acts[..n]), acts[n], id);
    if id < |After(acts[..n]).orders| {
      k := OrderWasPlaced(acts[..n], id);
      assert acts[..n][..k] == acts[..k];
    } else {
      k := n;
    }
  }

  /** The seller asks these three numbers for this pending order. */
  predicate Quotes(w: World, act: Act, id: nat, terms: Terms) {
    && act.Quote? && act.id == id && InState(w, id, Pending) && Owns(w, act.org, w.orders[id].panel)
    && act.paid == terms.amount && act.credit == terms.credit && act.rate == terms.price
  }

  /** Terms are set by a quote only, to what it says. */
  lemma TermsMove(w: World, act: Act, id: nat)
    requires id < |w.orders|
    ensures id < |Step(w, act).orders|
    ensures var o, p := w.orders[id], Step(w, act).orders[id];
            p.terms != o.terms || (o.status == Pending && p.status == Quoted) ==> Quotes(w, act, id, p.terms)
  {
    hide Transfer, M.UsageOnce, M.Batch, AddChild, AddRoot, C.Next, DepthAllowed, PlanTerms, C.Served, C.Accepted;
  }

  lemma StatesMove(w: World, act: Act, id: nat)
    requires id < |w.orders|
    ensures id < |Step(w, act).orders|
    ensures var o, p := w.orders[id], Step(w, act).orders[id];
            && (p.status in {Quoted, Confirmed, PaymentDeclared, Approved} ==> o.status !in {Rejected, Cancelled})
            && (p.status in {Confirmed, PaymentDeclared, Approved} ==> o.status != Pending)
  {
    hide Step;
    OrdersMove(w, act);
  }

  lemma QuoteTaken(w: World, org: nat, id: nat, paid: Positive, credit: nat, rate: Positive)
    requires InState(w, id, Pending) && Owns(w, org, w.orders[id].panel)
    ensures Step(w, Quote(org, id, paid, credit, rate)).orders
         == w.orders[id := w.orders[id].(status := Quoted, terms := Terms(amount := paid, credit := credit, price := rate))]
  {
    OrderTaken(w, Quote(org, id, paid, credit, rate));
  }

  /** An order without a plan that has been quoted, or whose terms are set. */
  predicate IsQuoted(o: PanelOrder) {
    o.plan == None && (o.status in {Quoted, Confirmed, PaymentDeclared, Approved} || o.terms != Terms(0, 0, 0))
  }

  /**
   In every run, the terms of an order without a plan are what its seller quoted while it was pending, by the one
   who owned its server then; an order that was never quoted has none.
   */
  lemma {:induction false} TermsWereQuoted(acts: seq<Act>, id: nat) returns (k: nat)
    requires id < |After(acts).orders| && IsQuoted(After(acts).orders[id])
    ensures k < |acts| && Quotes(After(acts[..k]), acts[k], id, After(acts).orders[id].terms)
    ensures After(acts[..k]).orders[id].panel == After(acts).orders[id].panel
    decreases |acts|
  {
    hide Step, Quotes, OnSale;
    var n := |acts| - 1;
    var w := After(acts[..n]);
    OrdersCome(w, acts[n], id);
    if id < |w.orders| {
      TermsMove(w, acts[n], id);
      StatesMove(w, acts[n], id);
      var o, p := w.orders[id], After(acts).orders[id];
      if o.terms == p.terms && !(o.status == Pending && p.status == Quoted) {
        k := TermsWereQuoted(acts[..n], id);
        assert acts[..n][..k] == acts[..k];
      } else {
        k := n;
      }
    }
  }

  /** A quote by the owner of the server of a pending order is taken, and stands for good. */
  lemma QuoteStands(acts: seq<Act>, org: nat, id: nat, paid: Positive, credit: nat, rate: Positive, more: seq<Act>)
    requires InState(After(acts), id, Pending) && Owns(After(acts), org, After(acts).orders[id].panel)
    ensures var next := acts + [Quote(org, id, paid, credit, rate)];
            var quoted, later := After(next), After(next + more);
            && id < |quoted.orders| && quoted.orders[id].status == Quoted
            && id < |later.orders| && later.orders[id].terms.amount == paid && later.orders[id].terms.credit == credit
            && later.orders[id].terms.price == rate
  {
    hide Step, After;
    var act := Quote(org, id, paid, credit, rate);
    AfterNext(acts, act);
    QuoteTaken(After(acts), org, id, paid, credit, rate);
    TermsFrozen(acts + [act], more, id);
  }

  // ---- funding requests ----

  lemma FundingsCome(w: World, act: Act, id: nat)
    requires id < |Step(w, act).fundings|
    ensures var f := Step(w, act).fundings[id];
            if id < |w.fundings| then f.org == w.fundings[id].org && f.amount == w.fundings[id].amount
            else id == |w.fundings| && act.RequestFunding? && act.org == f.org && act.paid == f.amount && f.status == Asked
                 && f.org < |w.shop.tree.orgs|
  {
    hide Transfer, M.UsageOnce, M.Batch, AddChild, AddRoot, C.Next, DepthAllowed, PlanTerms, C.Served, C.Accepted;
  }

  /** Every funding request was asked for, for its organization and at its amount. */
  lemma {:induction false} FundingWasAsked(acts: seq<Act>, id: nat) returns (k: nat)
    requires id < |After(acts).fundings|
    ensures var f := After(acts).fundings[id];
            && k < |acts| && acts[k].RequestFunding? && acts[k].org == f.org && acts[k].paid == f.amount
            && id == |After(acts[..k]).fundings| && f.org < |After(acts[..k]).shop.tree.orgs|
    decreases |acts|
  {
    hide Step;
    var n := |acts| - 1;
    FundingsCome(After(acts[..n]), acts[n], id);
    if id < |After(acts[..n]).fundings| {
      k := FundingWasAsked(acts[..n], id);
      assert acts[..n][..k] == acts[..k];
    } else {
      k := n;
    }
  }

  // ---- coefficients ----

  /** The request sets the coefficient of this server: its owner does, or the server is new. */
  predicate SetsCoefficient(w: World, act: Act, panel: nat, coef: int) {
    || (act.SetCoefficient? && act.panel == panel && act.coef == coef && Owns(w, act.org, panel))
    || (act.AddPanel? && panel == w.catalog.next && act.coef == coef)
  }

  lemma CoefsMove(w: World, act: Act, panel: nat)
    requires panel in Step(w, act).shop.coefs
    ensures var coef := Step(w, act).shop.coefs[panel];
            || (panel in w.shop.coefs && w.shop.coefs[panel] == coef)
            || SetsCoefficient(w, act, panel, coef)
    ensures act.SetCoefficient? && act.panel == panel && Owns(w, act.org, panel) && w.catalog.panels[panel].active ==>
              Step(w, act).shop.coefs[panel] == act.coef
  {
    hide M.Observe, M.BatchFrom, AddChild, AddRoot, DepthAllowed, PlanTerms, C.Served, C.Accepted, Transfer;
    if act.Usage? {
      R.ObserveTree(w.shop, act.binding, act.reading);
    } else if act.UsageBatch? {
      R.BatchTree(w.shop, act.items, {});
    }
  }

  /** A price is reckoned with the coefficient that the owner of the server set last; with one, were there none. */
  lemma {:induction false} CoefficientWasSet(acts: seq<Act>, panel: nat) returns (k: nat)
    ensures panel !in After(acts).shop.coefs ==> M.Coefficient(After(acts).shop.coefs, panel) == 10000
    ensures panel in After(acts).shop.coefs ==>
              && k < |acts| && SetsCoefficient(After(acts[..k]), acts[k], panel, M.Coefficient(After(acts).shop.coefs, panel))
              && forall j :: k < j <= |acts| ==> panel in After(acts[..j]).shop.coefs
                                                 && After(acts[..j]).shop.coefs[panel] == After(acts).shop.coefs[panel]
    decreases |acts|
  {
    hide Step, SetsCoefficient;
    k := 0;
    if panel in After(acts).shop.coefs {
      var n := |acts| - 1;
      var w := After(acts[..n]);
      assert acts[..|acts|] == acts;
      CoefsMove(w, acts[n], panel);
      if panel in w.shop.coefs && w.shop.coefs[panel] == After(acts).shop.coefs[panel] {
        k := CoefficientWasSet(acts[..n], panel);
        assert acts[..n][..k] == acts[..k];
        forall j | k < j <= |acts|
          ensures panel in After(acts[..j]).shop.coefs && After(acts[..j]).shop.coefs[panel] == After(acts).shop.coefs[panel]
        {
          if j < |acts| { assert acts[..n][..j] == acts[..j]; }
        }
      } else {
        k := n;
        SetPositive(w, acts[n], panel, After(acts).shop.coefs[panel]);
        forall j | k < j <= |acts| ensures acts[..j] == acts {}
      }
    }
  }

  lemma SetPositive(w: World, act: Act, panel: nat, coef: int)
    requires SetsCoefficient(w, act, panel, coef)
    ensures coef > 0
  {}

  // ---- organizations ----

  /** The request creates this organization with this parent, credit, and price of its contract. */
  predicate Founds(w: World, act: Act, parent: Option<nat>, credit: int, price: int) {
    match act
    case CreateRoot(c) => parent == None && c == credit
    case CreateChild(p, c, rate, _) => parent == Some(p) && c == credit && rate == price && p < |w.shop.tree.orgs|
    case ApproveOrder(p, id, _, _) =>
      && parent == Some(p) && p < |w.shop.tree.orgs| && InState(w, id, PaymentDeclared)
      && w.orders[id].terms.credit == credit && w.orders[id].terms.price == price
    case _ => false
  }

  function PriceOf(t: Tree, id: nat): int {
    if id in t.contracts then t.contracts[id].price else 0
  }

  lemma OrgsCome(w: World, act: Act, id: nat)
    requires |w.shop.tree.orgs| <= id < |Step(w, act).shop.tree.orgs|
    ensures var t := Step(w, act).shop.tree;
            && id == |w.shop.tree.orgs| && Founds(w, act, t.orgs[id].parent, t.orgs[id].credit, PriceOf(t, id))
            && t.orgs[id].active && t.orgs[id].maxDepth == 5 && (t.orgs[id].parent.Some? ==> id in t.contracts)
  {
    hide M.Observe, M.BatchFrom, DepthAllowed, CopiedRows, PlanTerms, C.Served, C.Accepted, C.Next, Transfer;
    if act.Usage? {
      R.ObserveTree(w.shop, act.binding, act.reading);
    } else if act.UsageBatch? {
      R.BatchTree(w.shop, act.items, {});
    }
  }

  /** Every organization has the parent, the credit and the price it was created with. */
  lemma {:induction false} OrgWasFounded(acts: seq<Act>, id: nat) returns (k: nat)
    requires id < |After(acts).shop.tree.orgs|
    ensures var t := After(acts).shop.tree;
            && k < |acts| && id == |After(acts[..k]).shop.tree.orgs|
            && Founds(After(acts[..k]), acts[k], t.orgs[id].parent, t.orgs[id].credit,
                      if t.orgs[id].parent == None then 0 else PriceOf(t, id))
    decreases |acts|
  {
    hide Step, Founds;
    var n := |acts| - 1;
    var w := After(acts[..n]);
    R.StepGrowsTree(w, acts[n]);
    if id < |w.shop.tree.orgs| {
      k := OrgWasFounded(acts[..n], id);
      assert acts[..n][..k] == acts[..k];
      AlwaysOk(acts[..n]);
      SamePrice(w, After(acts), id);
    } else {
      k := n;
      OrgsCome(w, acts[n], id);
      RootsFound(w, acts[n], After(acts).shop.tree.orgs[id].credit, PriceOf(After(acts).shop.tree, id));
    }
  }

  lemma RootsFound(w: World, act: Act, credit: int, price: int)
    ensures Founds(w, act, None, credit, price) ==> Founds(w, act, None, credit, 0)
  {}

  lemma SamePrice(w: World, next: World, id: nat)
    requires R.TreeGrows(w.shop.tree, next.shop.tree) && id < |w.shop.tree.orgs|
    ensures next.shop.tree.orgs[id].parent == w.shop.tree.orgs[id].parent
    ensures next.shop.tree.orgs[id].credit == w.shop.tree.orgs[id].credit
    ensures PriceOf(next.shop.tree, id) == PriceOf(w.shop.tree, id)
  {}

  /** How often its parent has switched this organization. */
  function Switches(acts: seq<Act>, id: nat): nat {
    if acts == [] then 0
    else
      var n := |acts| - 1;
      var orgs := After(acts[..n]).shop.tree.orgs;
      Switches(acts[..n], id)
      + (if acts[n].ToggleReseller? && acts[n].org == id < |orgs| && orgs[id].parent == Some(acts[n].parent) then 1 else 0)
  }

  /** Nothing but a switch touches an organization that exists. */
  lemma OrgsKept(w: World, act: Act)
    requires !act.ToggleReseller?
    ensures w.shop.tree.orgs <= Step(w, act).shop.tree.orgs
  {
    hide M.Observe, M.BatchFrom, DepthAllowed, CopiedRows, PlanTerms, C.Served, C.Accepted, C.Next, Transfer;
    if act.Usage? {
      R.ObserveTree(w.shop, act.binding, act.reading);
    } else if act.UsageBatch? {
      R.BatchTree(w.shop, act.items, {});
    }
  }

  lemma ActiveMoves(w: World, act: Act, id: nat)
    requires id < |w.shop.tree.orgs|
    ensures var orgs, after := w.shop.tree.orgs, Step(w, act).shop.tree.orgs;
            && id < |after|
            && (after[id].active != orgs[id].active <==>
                  act.ToggleReseller? && act.org == id && orgs[id].parent == Some(act.parent))
  {
    if !act.ToggleReseller? {
      hide Step;
      OrgsKept(w, act);
    }
  }

  /** An organization is active exactly when its direct parent has switched it an even number of times; nobody else has a say. */
  lemma {:induction false} ActiveIffEven(acts: seq<Act>, id: nat)
    ensures id < |After(acts).shop.tree.orgs| ==> (After(acts).shop.tree.orgs[id].active <==> Switches(acts, id) % 2 == 0)
    ensures id >= |After(acts).shop.tree.orgs| ==> Switches(acts, id) == 0
  {
    hide Step;
    if acts != [] {
      var n := |acts| - 1;
      var w := After(acts[..n]);
      ActiveIffEven(acts[..n], id);
      R.StepGrowsTree(w, acts[n]);
      if id < |w.shop.tree.orgs| {
        ActiveMoves(w, acts[n], id);
      } else if id < |After(acts).shop.tree.orgs| {
        OrgsCome(w, acts[n], id);
      }
    }
  }

  // ---- bindings ----

  /** The request binds this organization and server under this id. */
  predicate Binds(w: World, act: Act, b: nat, binding: M.Binding) {
    || act == Bind(b, binding.org, binding.panel)
    || (act.ApproveOrder? && act.bindAs == Some(b) && InState(w, act.id, PaymentDeclared)
        && binding == M.Binding(|w.shop.tree.orgs|, w.orders[act.id].panel))
  }

  lemma BindingsCome(w: World, act: Act, b: nat)
    requires b in Step(w, act).shop.bindings && b !in w.shop.bindings
    ensures Binds(w, act, b, Step(w, act).shop.bindings[b])
  {
    hide M.Observe, M.BatchFrom, DepthAllowed, AddChild, AddRoot, PlanTerms, C.Served, C.Accepted, C.Next, Transfer;
    if act.Usage? {
      R.ObserveTree(w.shop, act.binding, act.reading);
    } else if act.UsageBatch? {
      R.BatchTree(w.shop, act.items, {});
    }
  }

  /** Every binding is what was bound, and never changes. */
  lemma {:induction false} BindingWasMade(acts: seq<Act>, b: nat) returns (k: nat)
    requires b in After(acts).shop.bindings
    ensures k < |acts| && b !in After(acts[..k]).shop.bindings
    ensures Binds(After(acts[..k]), acts[k], b, After(acts).shop.bindings[b])
    decreases |acts|
  {
    hide Step, Binds;
    var n := |acts| - 1;
    var w := After(acts[..n]);
    if b in w.shop.bindings {
      R.BindingsStay(w, acts[n], b);
      k := BindingWasMade(acts[..n], b);
      assert acts[..n][..k] == acts[..k];
    } else {
      k := n;
      BindingsCome(w, acts[n], b);
    }
  }
}
