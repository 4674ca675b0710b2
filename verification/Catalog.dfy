/**
 The plan catalog (src/control_plane/web_api.py:875-898 and 1129-1322): sellers publish plans on
 shelves, and what strangers are shown must be what they can order.
 */
module Catalog {
  import opened Options

  datatype Panel = Panel(owner: Option<nat>, active: bool, saleable: bool)

  datatype Shelf = Shelf(org: nat, name: string, active: bool)

  /** What a seller fills in. */
  datatype Form = Form(panel: nat, shelf: Option<nat>, price: Positive, daily: Positive, days: Positive, users: Positive,
                       credit: nat)

  datatype Plan = Plan(org: nat, form: Form, active: bool)

  /** The tables, the next free identifier, and the plans that some order refers to. */
  datatype Store = Store(panels: map<nat, Panel>, shelves: map<nat, Shelf>, plans: map<nat, Plan>, ordered: set<nat>, next: nat)

  /** Requests of an organization's catalog managers, of the owner of a server, and of customers. */
  datatype Request =
    | AddPanel(owner: Option<nat>)
    | SetSaleable(org: nat, panel: nat, saleable: bool)
    | CreateShelf(org: nat, name: string)
    | RenameShelf(org: nat, shelf: nat, name: string)
    | SetShelfStatus(org: nat, shelf: nat, active: bool)
    | DeleteShelf(org: nat, shelf: nat)
    | CreatePlan(org: nat, form: Form)
    | UpdatePlan(org: nat, plan: nat, form: Form)
    | SetPlanStatus(org: nat, plan: nat, active: bool)
    | DeletePlan(org: nat, plan: nat)
    | Order(panel: nat, chosen: Option<nat>)

  // ---- the checks ----

  predicate OwnedPanel(s: Store, panel: nat, org: nat) {
    panel in s.panels && s.panels[panel].owner == Some(org) && s.panels[panel].active
  }

  predicate OwnShelf(s: Store, shelf: nat, org: nat) {
    shelf in s.shelves && s.shelves[shelf].org == org
  }

  predicate OwnPlan(s: Store, plan: nat, org: nat) {
    plan in s.plans && s.plans[plan].org == org
  }

  predicate ValidForm(s: Store, form: Form, org: nat) {
    (form.shelf.Some? ==> OwnShelf(s, form.shelf.value, org)) && OwnedPanel(s, form.panel, org)
  }

  predicate NameTaken(s: Store, org: nat, name: string, besides: Option<nat>) {
    exists i :: i in s.shelves && s.shelves[i].org == org && s.shelves[i].name == name && Some(i) != besides
  }

  predicate ShelfUsed(s: Store, shelf: nat) {
    exists p :: p in s.plans && s.plans[p].form.shelf == Some(shelf)
  }

  /** The server check of an order. */
  predicate OpenPanel(s: Store, panel: nat) {
    panel in s.panels && s.panels[panel].active && s.panels[panel].saleable
  }

  /** saleable_plan_rows: whether a plan is shown to strangers. */
  predicate Listed(s: Store, plan: nat) {
    && plan in s.plans && s.plans[plan].active && OpenPanel(s, s.plans[plan].form.panel)
    && var shelf := s.plans[plan].form.shelf;
       shelf.Some? ==> shelf.value in s.shelves && s.shelves[shelf.value].active
  }

  /** priced_plan: whether a plan is sold on this server. */
  predicate PricedPlan(s: Store, panel: nat, plan: nat) {
    && plan in s.plans && s.plans[plan].active && s.plans[plan].form.panel == panel
    && var shelf := s.plans[plan].form.shelf;
       shelf.Some? ==> OwnShelf(s, shelf.value, s.plans[plan].org) && s.shelves[shelf.value].active
  }

  predicate Orderable(s: Store, panel: nat, plan: nat) {
    OpenPanel(s, panel) && PricedPlan(s, panel, plan)
  }

  function Price(s: Store, plan: nat): nat {
    if plan in s.plans then s.plans[plan].form.price else 0
  }

  predicate CheapestFirst(s: Store, plans: seq<nat>) {
    forall i, j :: 0 <= i < j < |plans| ==> Price(s, plans[i]) <= Price(s, plans[j])
  }

  // ---- the requests ----

  predicate Accepted(s: Store, r: Request) {
    match r
    case AddPanel(_) => true
    case SetSaleable(org, panel, _) => OwnedPanel(s, panel, org)
    case CreateShelf(org, name) => !NameTaken(s, org, name, None)
    case RenameShelf(org, shelf, name) => OwnShelf(s, shelf, org) && !NameTaken(s, org, name, Some(shelf))
    case SetShelfStatus(org, shelf, _) => OwnShelf(s, shelf, org)
    case DeleteShelf(org, shelf) => OwnShelf(s, shelf, org) && !ShelfUsed(s, shelf)
    case CreatePlan(org, form) => ValidForm(s, form, org)
    case UpdatePlan(org, plan, form) => OwnPlan(s, plan, org) && ValidForm(s, form, org)
    case SetPlanStatus(org, plan, _) => OwnPlan(s, plan, org)
    case DeletePlan(org, plan) => OwnPlan(s, plan, org) && plan !in s.ordered
    case Order(panel, chosen) => if chosen.Some? then Orderable(s, panel, chosen.value) else OpenPanel(s, panel)
  }

  /** The row that a request is about exists. */
  predicate Known(s: Store, r: Request) {
    match r
    case SetSaleable(_, panel, _) => panel in s.panels
    case RenameShelf(_, shelf, _) => shelf in s.shelves
    case SetShelfStatus(_, shelf, _) => shelf in s.shelves
    case UpdatePlan(_, plan, _) => plan in s.plans
    case SetPlanStatus(_, plan, _) => plan in s.plans
    case _ => true
  }

  function Served(s: Store, r: Request): Store
    requires Known(s, r)
  {
    match r
    case AddPanel(owner) => s.(panels := s.panels[s.next := Panel(owner, true, false)], next := s.next + 1)
    case SetSaleable(_, panel, saleable) => s.(panels := s.panels[panel := s.panels[panel].(saleable := saleable)])
    case CreateShelf(org, name) => s.(shelves := s.shelves[s.next := Shelf(org, name, true)], next := s.next + 1)
    case RenameShelf(_, shelf, name) => s.(shelves := s.shelves[shelf := s.shelves[shelf].(name := name)])
    case SetShelfStatus(_, shelf, active) => s.(shelves := s.shelves[shelf := s.shelves[shelf].(active := active)])
    case DeleteShelf(_, shelf) => s.(shelves := s.shelves - {shelf})
    case CreatePlan(org, form) => s.(plans := s.plans[s.next := Plan(org, form, true)], next := s.next + 1)
    case UpdatePlan(_, plan, form) => s.(plans := s.plans[plan := s.plans[plan].(form := form)])
    case SetPlanStatus(_, plan, active) => s.(plans := s.plans[plan := s.plans[plan].(active := active)])
    case DeletePlan(_, plan) => s.(plans := s.plans - {plan})
    case Order(_, chosen) => if chosen.Some? then s.(ordered := s.ordered + {chosen.value}) else s
  }

  /** A refused request changes nothing. */
  function Next(s: Store, r: Request): Store {
    if Accepted(s, r) then Served(s, r) else s
  }

  function After(s: Store, requests: seq<Request>): Store {
    if requests == [] then s else Next(After(s, requests[..|requests| - 1]), requests[|requests| - 1])
  }

  // ---- what the catalog keeps ----

  ghost predicate CatalogOk(s: Store) {
    && (forall p :: p in s.plans ==> p < s.next && PlanPlaced(s, s.plans[p]))
    && (forall i :: i in s.shelves ==> i < s.next)
    && (forall i :: i in s.panels ==> i < s.next)
    && (forall i, j :: i in s.shelves && j in s.shelves && i != j ==>
          !(s.shelves[i].org == s.shelves[j].org && s.shelves[i].name == s.shelves[j].name))
    && s.ordered <= s.plans.Keys
  }

  /** A plan stands on a server of its seller, and on no shelf or one of its seller's. */
  predicate PlanPlaced(s: Store, plan: Plan) {
    && plan.form.panel in s.panels && s.panels[plan.form.panel].owner == Some(plan.org)
    && (plan.form.shelf.Some? ==> OwnShelf(s, plan.form.shelf.value, plan.org))
  }

  lemma PlacedStays(s: Store, r: Request, p: nat)
    requires CatalogOk(s) && p in Next(s, r).plans
    ensures p < Next(s, r).next && PlanPlaced(Next(s, r), Next(s, r).plans[p])
  {
    assert p in s.plans ==> PlanPlaced(s, s.plans[p]);
  }

  /** Every request keeps plans placed, shelf names unique per seller, and ordered plans in existence. */
  lemma NextKeeps(s: Store, r: Request)
    requires CatalogOk(s)
    ensures CatalogOk(Next(s, r))
  {
    hide PlanPlaced;
    var t := Next(s, r);
    forall p | p in t.plans ensures p < t.next && PlanPlaced(t, t.plans[p]) {
      PlacedStays(s, r, p);
    }
  }

  lemma {:induction false} RunKeeps(s: Store, requests: seq<Request>)
    requires CatalogOk(s)
    ensures CatalogOk(After(s, requests))
  {
    if requests != [] {
      RunKeeps(s, requests[..|requests| - 1]);
      NextKeeps(After(s, requests[..|requests| - 1]), requests[|requests| - 1]);
    }
  }

  /**
   In every state that requests can lead to, whatever was created, moved, closed or deleted, a plan
   is shown exactly when it can be ordered on its own server, and it can be ordered on no other.
   */
  lemma ListedIffOrderable(panels: map<nat, Panel>, next: nat, requests: seq<Request>, plan: nat, panel: nat)
    requires forall i :: i in panels ==> i < next
    ensures var s := After(Store(panels, map[], map[], {}, next), requests);
            Orderable(s, panel, plan) <==> Listed(s, plan) && s.plans[plan].form.panel == panel
  {
    RunKeeps(Store(panels, map[], map[], {}, next), requests);
    var s := After(Store(panels, map[], map[], {}, next), requests);
    assert plan in s.plans ==> PlanPlaced(s, s.plans[plan]);
  }

  /** Closing a shelf hides every plan on it, reopening it restores exactly what was shown, and the plans stay as they were. */
  lemma ClosingHides(s: Store, org: nat, shelf: nat, plan: nat)
    requires CatalogOk(s) && OwnShelf(s, shelf, org) && plan in s.plans
    ensures var closed := Next(s, SetShelfStatus(org, shelf, false));
            var reopened := Next(closed, SetShelfStatus(org, shelf, true));
            && closed.plans == s.plans && reopened.plans == s.plans
            && (Listed(closed, plan) <==> Listed(s, plan) && s.plans[plan].form.shelf != Some(shelf))
            && (s.shelves[shelf].active ==> (Listed(reopened, plan) <==> Listed(s, plan)))
  {}

  lemma ClosedStays(s: Store, shelf: nat, r: Request)
    requires CatalogOk(s) && (shelf in s.shelves ==> !s.shelves[shelf].active) && shelf < s.next
    requires !(r.SetShelfStatus? && r.shelf == shelf && r.active)
    ensures shelf in Next(s, r).shelves ==> !Next(s, r).shelves[shelf].active
    ensures shelf < Next(s, r).next
  {}

  /** Until somebody reopens a closed shelf, nothing on it is shown, whatever is created, moved, repriced or opened meanwhile. */
  lemma {:induction false} ClosedHides(s: Store, org: nat, shelf: nat, requests: seq<Request>, plan: nat)
    requires CatalogOk(s) && OwnShelf(s, shelf, org)
    requires forall i :: 0 <= i < |requests| ==> !(requests[i].SetShelfStatus? && requests[i].shelf == shelf && requests[i].active)
    ensures var t := After(Next(s, SetShelfStatus(org, shelf, false)), requests);
            && shelf < t.next && (shelf in t.shelves ==> !t.shelves[shelf].active)
            && (plan in t.plans && t.plans[plan].form.shelf == Some(shelf) ==> !Listed(t, plan))
    decreases |requests|
  {
    hide CatalogOk, Accepted;
    var closed := Next(s, SetShelfStatus(org, shelf, false));
    ClosedNow(s, org, shelf);
    if requests != [] {
      hide Next;
      var n := |requests| - 1;
      ClosedHides(s, org, shelf, requests[..n], plan);
      NextKeeps(s, SetShelfStatus(org, shelf, false));
      RunKeeps(closed, requests[..n]);
      ClosedStays(After(closed, requests[..n]), shelf, requests[n]);
    }
  }

  lemma ClosedNow(s: Store, org: nat, shelf: nat)
    requires CatalogOk(s) && OwnShelf(s, shelf, org)
    ensures var t := Next(s, SetShelfStatus(org, shelf, false));
            shelf < t.next && shelf in t.shelves && !t.shelves[shelf].active
  {}

  // ---- the tables, updated in place ----

  class Tables {
    var panels: map<nat, Panel>
    var shelves: map<nat, Shelf>
    var plans: map<nat, Plan>
    var ordered: set<nat>
    var next: nat

    function Now(): Store
      reads this
    {
      Store(panels, shelves, plans, ordered, next)
    }

    constructor (existing: map<nat, Panel>, firstFree: nat)
      ensures Now() == Store(existing, map[], map[], {}, firstFree)
    {
      panels, shelves, plans, ordered, next := existing, map[], map[], {}, firstFree;
    }

    method SetPanelSaleable(org: nat, panel: nat, saleable: bool) returns (ok: bool)
      modifies this
      ensures ok == Accepted(old(Now()), SetSaleable(org, panel, saleable))
      ensures Now() == Next(old(Now()), SetSaleable(org, panel, saleable))
    {
      if panel !in panels || panels[panel].owner != Some(org) || !panels[panel].active {
        return false;
      }
      panels := panels[panel := panels[panel].(saleable := saleable)];
      ok := true;
    }

    method CreatePlanCategory(org: nat, name: string) returns (id: Option<nat>)
      modifies this
      ensures id == if Accepted(old(Now()), CreateShelf(org, name)) then Some(old(next)) else None
      ensures Now() == Next(old(Now()), CreateShelf(org, name))
    {
      if NameTaken(Now(), org, name, None) {
        return None;
      }
      id := Some(next);
      shelves := shelves[next := Shelf(org, name, true)];
      next := next + 1;
    }

    method UpdateCategory(org: nat, shelf: nat, name: string) returns (ok: bool)
      modifies this
      ensures ok == Accepted(old(Now()), RenameShelf(org, shelf, name))
      ensures Now() == Next(old(Now()), RenameShelf(org, shelf, name))
    {
      if shelf !in shelves || shelves[shelf].org != org || NameTaken(Now(), org, name, Some(shelf)) {
        return false;
      }
      shelves := shelves[shelf := shelves[shelf].(name := name)];
      ok := true;
    }

    method SetCatalogStatus(org: nat, category: bool, target: nat, active: bool) returns (ok: bool)
      modifies this
      ensures var r := if category then SetShelfStatus(org, target, active) else SetPlanStatus(org, target, active);
              ok == Accepted(old(Now()), r) && Now() == Next(old(Now()), r)
    {
      if category {
        if target !in shelves || shelves[target].org != org {
          return false;
        }
        shelves := shelves[target := shelves[target].(active := active)];
      } else {
        if target !in plans || plans[target].org != org {
          return false;
        }
        plans := plans[target := plans[target].(active := active)];
      }
      ok := true;
    }

    method DeleteCategory(org: nat, shelf: nat) returns (ok: bool)
      modifies this
      ensures ok == Accepted(old(Now()), DeleteShelf(org, shelf)) && Now() == Next(old(Now()), DeleteShelf(org, shelf))
    {
      if shelf !in shelves || shelves[shelf].org != org || ShelfUsed(Now(), shelf) {
        return false;
      }
      shelves := shelves - {shelf};
      ok := true;
    }

    method CreateCatalogPlan(org: nat, form: Form) returns (id: Option<nat>)
      modifies this
      ensures id == if Accepted(old(Now()), CreatePlan(org, form)) then Some(old(next)) else None
      ensures Now() == Next(old(Now()), CreatePlan(org, form))
    {
      if !ValidForm(Now(), form, org) {
        return None;
      }
      id := Some(next);
      plans := plans[next := Plan(org, form, true)];
      next := next + 1;
    }

    method UpdateCatalogPlan(org: nat, plan: nat, form: Form) returns (ok: bool)
      modifies this
      ensures ok == Accepted(old(Now()), UpdatePlan(org, plan, form)) && Now() == Next(old(Now()), UpdatePlan(org, plan, form))
    {
      if plan !in plans || plans[plan].org != org || !ValidForm(Now(), form, org) {
        return false;
      }
      plans := plans[plan := plans[plan].(form := form)];
      ok := true;
    }

    method DeleteCatalogPlan(org: nat, plan: nat) returns (ok: bool)
      modifies this
      ensures ok == Accepted(old(Now()), DeletePlan(org, plan)) && Now() == Next(old(Now()), DeletePlan(org, plan))
    {
      if plan !in plans || plans[plan].org != org || plan in ordered {
        return false;
      }
      plans := plans - {plan};
      ok := true;
    }

    /** The rows shown to strangers; `published` is the database's answer: the active plans, cheapest first. */
    method SaleablePlanRows(published: seq<nat>) returns (rows: seq<nat>)
      requires forall p :: p in published <==> p in plans && plans[p].active
      requires CheapestFirst(Now(), published)
      ensures forall p :: p in rows <==> Listed(Now(), p)
      ensures CheapestFirst(Now(), rows)
    {
      rows := [];
      for k := 0 to |published|
        invariant forall p :: p in rows <==> p in published[..k] && Listed(Now(), p)
        invariant CheapestFirst(Now(), rows)
        invariant forall i, j :: 0 <= i < |rows| && k <= j < |published| ==> Price(Now(), rows[i]) <= Price(Now(), published[j])
      {
        var p := published[k];
        assert p in published;
        var form := plans[p].form;
        assert published[..k + 1] == published[..k] + [p];
        if OpenPanel(Now(), form.panel) && (form.shelf == None || (form.shelf.value in shelves && shelves[form.shelf.value].active)) {
          rows := rows + [p];
        }
      }
      assert published[..|published|] == published;
    }
  }
}
