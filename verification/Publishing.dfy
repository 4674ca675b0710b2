/**
 What sellers may do to the catalog and what it shows (src/control_plane/web_api.py:875-898 and
 1129-1322), said by the requests that were made: every row says what the last accepted request about it said.
 */
module Publishing {
  import opened Options
  import opened Catalog

  // ---- what is refused ----

  /** The request is about a row of the one who makes it, on a server that works. */
  predicate Entitled(s: Store, r: Request) {
    match r
    case AddPanel(_) => true
    case SetSaleable(org, panel, _) => panel in s.panels && s.panels[panel].owner == Some(org) && s.panels[panel].active
    case CreateShelf(_, _) => true
    case RenameShelf(org, shelf, _) => shelf in s.shelves && s.shelves[shelf].org == org
    case SetShelfStatus(org, shelf, _) => shelf in s.shelves && s.shelves[shelf].org == org
    case DeleteShelf(org, shelf) => shelf in s.shelves && s.shelves[shelf].org == org
    case CreatePlan(_, form) => form.panel in s.panels && s.panels[form.panel].active
    case UpdatePlan(org, plan, form) =>
      plan in s.plans && s.plans[plan].org == org && form.panel in s.panels && s.panels[form.panel].active
    case SetPlanStatus(org, plan, _) => plan in s.plans && s.plans[plan].org == org
    case DeletePlan(org, plan) => plan in s.plans && s.plans[plan].org == org
    case Order(_, _) => true
  }

  /** The order of the catalog, by its parts. */
  lemma OrderOfParts(s: Store)
    ensures CatalogOk(s) <==>
              && (forall p :: p in s.plans ==> p < s.next && PlanPlaced(s, s.plans[p]))
              && (forall i :: i in s.shelves ==> i < s.next) && (forall i :: i in s.panels ==> i < s.next)
              && (forall i, j :: i in s.shelves && j in s.shelves && i != j ==>
                    !(s.shelves[i].org == s.shelves[j].org && s.shelves[i].name == s.shelves[j].name))
              && s.ordered <= s.plans.Keys
  {}

  /** Nothing is refused without need: serving it would break the order of the catalog, or it is somebody else's row. */
  lemma RefusedIffHarmful(s: Store, r: Request)
    requires CatalogOk(s) && !r.Order?
    ensures Accepted(s, r) <==> Entitled(s, r) && Known(s, r) && CatalogOk(Served(s, r))
  {
    hide PlanPlaced;
    if Accepted(s, r) {
      NextKeeps(s, r);
    } else if Entitled(s, r) && Known(s, r) {
      Harmful(s, r);
    }
  }

  lemma Harmful(s: Store, r: Request)
    requires CatalogOk(s) && !r.Order? && !Accepted(s, r) && Entitled(s, r) && Known(s, r)
    ensures !CatalogOk(Served(s, r))
  {
    var t := Served(s, r);
    match r {
      case CreateShelf(org, name) =>
        var i :| i in s.shelves && s.shelves[i].org == org && s.shelves[i].name == name;
        assert t.shelves[i] == s.shelves[i] && t.shelves[s.next].name == name;
      case RenameShelf(org, shelf, name) =>
        var i :| i in s.shelves && s.shelves[i].org == org && s.shelves[i].name == name && Some(i) != Some(shelf);
        assert t.shelves[i] == s.shelves[i] && t.shelves[shelf].name == name;
      case DeleteShelf(org, shelf) =>
        var p :| p in s.plans && s.plans[p].form.shelf == Some(shelf);
        assert p in t.plans && !PlanPlaced(t, t.plans[p]);
      case CreatePlan(org, form) => assert s.next in t.plans && !PlanPlaced(t, t.plans[s.next]);
      case UpdatePlan(org, plan, form) => assert plan in t.plans && !PlanPlaced(t, t.plans[plan]);
      case DeletePlan(org, plan) => assert plan in t.ordered;
      case _ =>
    }
  }

  // ---- what a request does to each row ----

  function PlanAt(s: Store, p: nat): Option<Plan> {
    if p in s.plans then Some(s.plans[p]) else None
  }

  function ShelfAt(s: Store, i: nat): Option<Shelf> {
    if i in s.shelves then Some(s.shelves[i]) else None
  }

  function PanelAt(s: Store, i: nat): Option<Panel> {
    if i in s.panels then Some(s.panels[i]) else None
  }

  /** The plan p after an accepted request. */
  function PlanThen(s: Store, r: Request, p: nat): Option<Plan> {
    match (r, PlanAt(s, p))
    case (CreatePlan(org, form), now) => if p == s.next then Some(Plan(org, form, true)) else now
    case (UpdatePlan(_, q, form), Some(now)) => Some(if q == p then Plan(now.org, form, now.active) else now)
    case (SetPlanStatus(_, q, active), Some(now)) => Some(if q == p then Plan(now.org, now.form, active) else now)
    case (DeletePlan(_, q), now) => if q == p then None else now
    case (_, now) => now
  }

  function ShelfThen(s: Store, r: Request, i: nat): Option<Shelf> {
    match (r, ShelfAt(s, i))
    case (CreateShelf(org, name), now) => if i == s.next then Some(Shelf(org, name, true)) else now
    case (RenameShelf(_, j, name), Some(now)) => Some(if j == i then Shelf(now.org, name, now.active) else now)
    case (SetShelfStatus(_, j, active), Some(now)) => Some(if j == i then Shelf(now.org, now.name, active) else now)
    case (DeleteShelf(_, j), now) => if j == i then None else now
    case (_, now) => now
  }

  function PanelThen(s: Store, r: Request, i: nat): Option<Panel> {
    match (r, PanelAt(s, i))
    case (AddPanel(owner), now) => if i == s.next then Some(Panel(owner, true, false)) else now
    case (SetSaleable(_, j, saleable), Some(now)) => Some(if j == i then Panel(now.owner, now.active, saleable) else now)
    case (_, now) => now
  }

  /** A request changes the row it names as it says, and no other; a refused one changes nothing. */
  lemma RowsThen(s: Store, r: Request, i: nat)
    ensures var t := Next(s, r);
            if !Accepted(s, r) then t == s
            else PlanAt(t, i) == PlanThen(s, r, i) && ShelfAt(t, i) == ShelfThen(s, r, i) && PanelAt(t, i) == PanelThen(s, r, i)
    ensures var t := Next(s, r);
            && t.next == s.next + (if Accepted(s, r) && (r.AddPanel? || r.CreateShelf? || r.CreatePlan?) then 1 else 0)
            && t.ordered == s.ordered + (if Accepted(s, r) && r.Order? && r.chosen.Some? then {r.chosen.value} else {})
  {
    hide NameTaken, ShelfUsed, Orderable, ValidForm;
  }

  // ---- the last word ----

  /** The last word on whether a plan is open: its creation, or its seller's last decision. */
  function PlanOpen(start: Store, requests: seq<Request>, p: nat): bool {
    if requests == [] then false
    else
      var n := |requests| - 1;
      var s, r := After(start, requests[..n]), requests[n];
      if Accepted(s, r) && r.CreatePlan? && p == s.next then true
      else if Accepted(s, r) && r.SetPlanStatus? && r.plan == p then r.active
      else PlanOpen(start, requests[..n], p)
  }

  /** The last form that was handed in for a plan. */
  function LastForm(start: Store, requests: seq<Request>, p: nat): Option<Form> {
    if requests == [] then None
    else
      var n := |requests| - 1;
      var s, r := After(start, requests[..n]), requests[n];
      if Accepted(s, r) && ((r.CreatePlan? && p == s.next) || (r.UpdatePlan? && r.plan == p)) then Some(r.form)
      else LastForm(start, requests[..n], p)
  }

  /** The last word on whether a shelf is open. */
  function ShelfOpen(start: Store, requests: seq<Request>, i: nat): bool {
    if requests == [] then false
    else
      var n := |requests| - 1;
      var s, r := After(start, requests[..n]), requests[n];
      if Accepted(s, r) && r.CreateShelf? && i == s.next then true
      else if Accepted(s, r) && r.SetShelfStatus? && r.shelf == i then r.active
      else ShelfOpen(start, requests[..n], i)
  }

  /** The last word of its owner on whether a server is on sale; a new one is not. */
  function ServerOnSale(start: Store, requests: seq<Request>, i: nat): bool {
    if requests == [] then i in start.panels && start.panels[i].saleable
    else
      var n := |requests| - 1;
      var s, r := After(start, requests[..n]), requests[n];
      if Accepted(s, r) && r.AddPanel? && i == s.next then false
      else if Accepted(s, r) && r.SetSaleable? && r.panel == i then r.saleable
      else ServerOnSale(start, requests[..n], i)
  }

  /** Whether a server works: it does from the day it is added, and the catalog has no say in it. */
  function ServerWorks(start: Store, requests: seq<Request>, i: nat): bool {
    if requests == [] then i in start.panels && start.panels[i].active
    else
      var n := |requests| - 1;
      var s, r := After(start, requests[..n]), requests[n];
      (Accepted(s, r) && r.AddPanel? && i == s.next) || ServerWorks(start, requests[..n], i)
  }

  function Beginning(panels: map<nat, Panel>, next: nat): Store {
    Store(panels, map[], map[], {}, next)
  }

  /** Every row says what the last accepted request about it said: plans, */
  lemma {:induction false} LastWordsOnPlans(panels: map<nat, Panel>, next: nat, requests: seq<Request>, i: nat)
    requires forall j :: j in panels ==> j < next
    ensures var start := Beginning(panels, next);
            var s := After(start, requests);
            i in s.plans ==>
              s.plans[i].active == PlanOpen(start, requests, i) && LastForm(start, requests, i) == Some(s.plans[i].form)
  {
    hide Accepted, CatalogOk, Next;
    var start := Beginning(panels, next);
    if requests != [] {
      var n := |requests| - 1;
      LastWordsOnPlans(panels, next, requests[..n], i);
      StartInOrder(panels, next);
      RunKeeps(start, requests[..n]);
      FreshId(After(start, requests[..n]));
      RowsThen(After(start, requests[..n]), requests[n], i);
    }
  }

  /** shelves, */
  lemma {:induction false} LastWordsOnShelves(panels: map<nat, Panel>, next: nat, requests: seq<Request>, i: nat)
    requires forall j :: j in panels ==> j < next
    ensures var start := Beginning(panels, next);
            var s := After(start, requests);
            i in s.shelves ==> s.shelves[i].active == ShelfOpen(start, requests, i)
  {
    hide Accepted, CatalogOk, Next;
    var start := Beginning(panels, next);
    if requests != [] {
      var n := |requests| - 1;
      LastWordsOnShelves(panels, next, requests[..n], i);
      StartInOrder(panels, next);
      RunKeeps(start, requests[..n]);
      FreshId(After(start, requests[..n]));
      RowsThen(After(start, requests[..n]), requests[n], i);
    }
  }

  /** and servers. */
  lemma {:induction false} LastWordsOnServers(panels: map<nat, Panel>, next: nat, requests: seq<Request>, i: nat)
    requires forall j :: j in panels ==> j < next
    ensures var start := Beginning(panels, next);
            var s := After(start, requests);
            i in s.panels ==>
              s.panels[i].saleable == ServerOnSale(start, requests, i) && s.panels[i].active == ServerWorks(start, requests, i)
  {
    hide Accepted, CatalogOk, Next;
    var start := Beginning(panels, next);
    if requests != [] {
      var n := |requests| - 1;
      LastWordsOnServers(panels, next, requests[..n], i);
      StartInOrder(panels, next);
      RunKeeps(start, requests[..n]);
      FreshId(After(start, requests[..n]));
      RowsThen(After(start, requests[..n]), requests[n], i);
    }
  }

  lemma StartInOrder(panels: map<nat, Panel>, next: nat)
    requires forall j :: j in panels ==> j < next
    ensures CatalogOk(Beginning(panels, next))
  {}

  lemma FreshId(s: Store)
    requires CatalogOk(s)
    ensures s.next !in s.plans && s.next !in s.shelves && s.next !in s.panels
  {
    hide PlanPlaced;
  }

  /**
   What strangers are shown, by the last words: an existing plan, opened by its seller, on a server that works and
   that its owner has put on sale, and if it stands on a shelf, on one that is open.
   */
  lemma ListedByTheLastWords(panels: map<nat, Panel>, next: nat, requests: seq<Request>, p: nat)
    requires forall j :: j in panels ==> j < next
    ensures var start := Beginning(panels, next);
            Listed(After(start, requests), p) <==>
              && p in After(start, requests).plans && PlanOpen(start, requests, p)
              && var form := LastForm(start, requests, p);
                 && form.Some? && ServerOnSale(start, requests, form.value.panel) && ServerWorks(start, requests, form.value.panel)
                 && (form.value.shelf.Some? ==> ShelfOpen(start, requests, form.value.shelf.value))
  {
    hide PlanOpen, ShelfOpen, ServerOnSale, ServerWorks, LastForm, After;
    var start := Beginning(panels, next);
    var s := After(start, requests);
    LastWordsOnPlans(panels, next, requests, p);
    StartInOrder(panels, next);
    RunKeeps(start, requests);
    if p in s.plans {
      assert PlanPlaced(s, s.plans[p]);
      LastWordsOnServers(panels, next, requests, s.plans[p].form.panel);
      if s.plans[p].form.shelf.Some? { LastWordsOnShelves(panels, next, requests, s.plans[p].form.shelf.value); }
    }
  }
}
